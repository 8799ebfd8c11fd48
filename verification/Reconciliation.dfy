/** The rest of reconciliation/checks.py: position and freshness checks, the roll-up of severities
    and the tail of `run_reconciliation_check`. */
module Reconciliation {
  import opened Decimals
  import opened OpenOrders
  import Text

  // ---------------------------------------------------------------- position

  datatype Position = Position(symbol: string, side: string, qty: string, avgEntryPrice: Option<string>)

  datatype PositionKey = SymbolKey | SideKey | QtyKey | AvgEntryPriceKey

  const POSITION_KEYS: seq<PositionKey> := [SymbolKey, SideKey, QtyKey, AvgEntryPriceKey]

  datatype NormalPosition = NormalPosition(symbol: string, side: string, qty: string, avgEntryPrice: Option<string>) {
    function Get(k: PositionKey): Option<string> {
      match k
      case SymbolKey => Some(symbol)
      case SideKey => Some(side)
      case QtyKey => Some(qty)
      case AvgEntryPriceKey => avgEntryPrice
    }
  }

  datatype PositionIssue = QtyUnreadable | AvgUnreadable | FlatNeedsZero | FlatNeedsNoPrice
  datatype Normalized = Normal(position: NormalPosition) | Rejected(issue: PositionIssue)

  function NormalizePosition(read: Reader, p: Position): Normalized {
    var qty := read(p.qty);
    if qty.None? then Rejected(QtyUnreadable)
    else
      var avg := if p.avgEntryPrice.Some? then read(p.avgEntryPrice.value) else None;
      if p.avgEntryPrice.Some? && avg.None? then Rejected(AvgUnreadable)
      else if p.side == "flat" && !qty.value.IsZero() then Rejected(FlatNeedsZero)
      else if p.side == "flat" && avg.Some? then Rejected(FlatNeedsNoPrice)
      else Normal(NormalPosition(Text.Strip(p.symbol), p.side, RenderDecimal(qty.value),
                                 if avg.Some? then Some(RenderDecimal(avg.value)) else None))
  }

  datatype PositionDelta = PositionDelta(key: PositionKey, expected: Option<string>, observed: Option<string>)

  datatype PositionCheck =
    | PositionUnknown(party: Party, issue: PositionIssue)
    | PositionMismatch(deltas: seq<PositionDelta>)
    | PositionMatched
  {
    function Severity(): Severity {
      match this
      case PositionUnknown(_, _) => Unknown
      case PositionMismatch(_) => Mismatch
      case PositionMatched => Ok
    }
  }

  /** A position that makes sense: numbers readable, and nothing held when flat. */
  predicate Decidable(read: Reader, p: Position) {
    && read(p.qty).Some? && (p.avgEntryPrice.Some? ==> read(p.avgEntryPrice.value).Some?)
    && (p.side == "flat" ==> read(p.qty).value.IsZero() && p.avgEntryPrice.None?)
  }

  /** Two positions agree on one key, numbers as numbers. */
  predicate PositionsAgreeOn(read: Reader, e: Position, o: Position, k: PositionKey)
    requires Decidable(read, e) && Decidable(read, o)
  {
    match k
    case SymbolKey => Text.Strip(e.symbol) == Text.Strip(o.symbol)
    case SideKey => e.side == o.side
    case QtyKey => NumEq(read(e.qty).value, read(o.qty).value)
    case AvgEntryPriceKey =>
      && e.avgEntryPrice.Some? == o.avgEntryPrice.Some?
      && (e.avgEntryPrice.Some? ==> NumEq(read(e.avgEntryPrice.value).value, read(o.avgEntryPrice.value).value))
  }

  function PositionVerdict(read: Reader, e: Position, o: Position): Severity {
    if !Decidable(read, e) || !Decidable(read, o) then Unknown
    else if forall k <- POSITION_KEYS :: PositionsAgreeOn(read, e, o, k) then Ok
    else Mismatch
  }

  lemma NormalizeDecides(read: Reader, p: Position)
    ensures NormalizePosition(read, p).Normal? <==> Decidable(read, p)
  {
  }

  /** What a position is refused for, first complaint first, and what is shown of an accepted one. */
  lemma NormalizedSaid(read: Reader, p: Position)
    ensures var n := NormalizePosition(read, p);
      if read(p.qty).None? then n == Rejected(QtyUnreadable)
      else if p.avgEntryPrice.Some? && read(p.avgEntryPrice.value).None? then n == Rejected(AvgUnreadable)
      else if p.side == "flat" && read(p.qty).value.coefficient != 0 then n == Rejected(FlatNeedsZero)
      else if p.side == "flat" && p.avgEntryPrice.Some? then n == Rejected(FlatNeedsNoPrice)
      else
        && n.Normal?
        && n.position.Get(SymbolKey) == Some(Text.Strip(p.symbol)) && n.position.Get(SideKey) == Some(p.side)
        && n.position.Get(QtyKey) == Some(RenderDecimal(read(p.qty).value))
        && n.position.Get(AvgEntryPriceKey) ==
           if p.avgEntryPrice.None? then None else Some(RenderDecimal(read(p.avgEntryPrice.value).value))
  {
    hide RenderDecimal, Text.Strip;
  }

  lemma NormalAgree(read: Reader, e: Position, o: Position, k: PositionKey)
    requires Decidable(read, e) && Decidable(read, o)
    ensures NormalizePosition(read, e).position.Get(k) == NormalizePosition(read, o).position.Get(k)
        <==> PositionsAgreeOn(read, e, o, k)
  {
    hide RenderDecimal, NumEq, Text.Strip;
    CanonicalForm(read(e.qty).value, read(o.qty).value);
    if e.avgEntryPrice.Some? && o.avgEntryPrice.Some? {
      CanonicalForm(read(e.avgEntryPrice.value).value, read(o.avgEntryPrice.value).value);
    }
  }

  /** The delta shown for a key. */
  function DeltaOn(e: NormalPosition, o: NormalPosition, k: PositionKey): PositionDelta {
    PositionDelta(k, e.Get(k), o.Get(k))
  }

  /** The order in which keys are compared. */
  function KeyRank(k: PositionKey): nat {
    match k
    case SymbolKey => 0
    case SideKey => 1
    case QtyKey => 2
    case AvgEntryPriceKey => 3
  }

  /** `_compare_position`. The deltas name exactly the keys on which the positions differ. */
  method ComparePosition(read: Reader, expected: Position, observed: Position) returns (check: PositionCheck)
    ensures check.Severity() == PositionVerdict(read, expected, observed)
    ensures check.PositionUnknown? ==>
      NormalizePosition(read, if check.party.Expected? then expected else observed) == Rejected(check.issue)
      && (check.party.Observed? ==> Decidable(read, expected))
    ensures check.PositionMismatch? ==>
      var e, o := NormalizePosition(read, expected), NormalizePosition(read, observed);
      && e.Normal? && o.Normal? && Decidable(read, expected) && Decidable(read, observed)
      && forall d: PositionDelta :: d in check.deltas <==>
           d.key in POSITION_KEYS && d == DeltaOn(e.position, o.position, d.key)
           && !PositionsAgreeOn(read, expected, observed, d.key)
    ensures check.PositionMismatch? ==>
      var e, o := NormalizePosition(read, expected).position, NormalizePosition(read, observed).position;
      && (forall i :: 0 <= i < |check.deltas| ==>
            && check.deltas[i].expected == e.Get(check.deltas[i].key)
            && check.deltas[i].observed == o.Get(check.deltas[i].key))
      && (forall i, j :: 0 <= i < j < |check.deltas| ==> KeyRank(check.deltas[i].key) < KeyRank(check.deltas[j].key))
  {
    hide PositionsAgreeOn, NormalizePosition, Decidable;
    NormalizeDecides(read, expected);
    NormalizeDecides(read, observed);
    var e := NormalizePosition(read, expected);
    if e.Rejected? {
      return PositionUnknown(Expected, e.issue);
    }
    var o := NormalizePosition(read, observed);
    if o.Rejected? {
      return PositionUnknown(Observed, o.issue);
    }
    var deltas: seq<PositionDelta> := [];
    for n := 0 to |POSITION_KEYS|
      invariant forall d: PositionDelta :: d in deltas <==>
        d.key in POSITION_KEYS[..n] && d == DeltaOn(e.position, o.position, d.key)
        && !PositionsAgreeOn(read, expected, observed, d.key)
      invariant forall i :: 0 <= i < |deltas| ==>
        && deltas[i].expected == e.position.Get(deltas[i].key) && deltas[i].observed == o.position.Get(deltas[i].key)
        && KeyRank(deltas[i].key) < n
      invariant forall i, j :: 0 <= i < j < |deltas| ==> KeyRank(deltas[i].key) < KeyRank(deltas[j].key)
    {
      var key := POSITION_KEYS[n];
      NormalAgree(read, expected, observed, key);
      assert POSITION_KEYS[..n + 1] == POSITION_KEYS[..n] + [key];
      if e.position.Get(key) != o.position.Get(key) {
        deltas := deltas + [PositionDelta(key, e.position.Get(key), o.position.Get(key))];
      }
    }
    assert POSITION_KEYS[..|POSITION_KEYS|] == POSITION_KEYS;
    check := if deltas != [] then PositionMismatch(deltas) else PositionMatched;
    assert deltas != [] ==> deltas[0] in deltas;
    assert forall k <- POSITION_KEYS :: DeltaOn(e.position, o.position, k).key == k;
  }

  // ---------------------------------------------------------------- freshness

  datatype Freshness = Freshness(positionTs: Option<string>, ordersTs: Option<string>, maxAgeSeconds: Option<int>)

  datatype TsField = OrdersTs | PositionTs

  const TS_FIELDS: seq<TsField> := [OrdersTs, PositionTs]

  /** ISO-8601 text read as microseconds since an epoch; `None` where parsing fails. */
  type Clock = string -> Option<int>

  const SECOND := 1_000_000

  datatype FreshnessCheck =
    | NoThreshold | NoObservedFreshness | TimestampsMissing(fields: seq<TsField>) | TimestampInvalid(field: TsField)
    | Stale(fields: seq<TsField>, ages: map<TsField, int>) | Fresh(ages: map<TsField, int>)
  {
    function Severity(): Severity {
      match this
      case Stale(_, _) => Warning
      case Fresh(_) => Ok
      case _ => Unknown
    }
  }

  function Usable(f: Option<Freshness>): Option<int> {
    if f.Some? && f.value.maxAgeSeconds.Some? && f.value.maxAgeSeconds.value > 0 then f.value.maxAgeSeconds else None
  }

  /** `_resolve_max_age_seconds`: the observed threshold wins. */
  function ResolveMaxAge(expected: Option<Freshness>, observed: Option<Freshness>): Option<int> {
    if Usable(observed).Some? then Usable(observed) else Usable(expected)
  }

  function RawTs(f: Freshness, k: TsField): Option<string> {
    if k.OrdersTs? then f.ordersTs else f.positionTs
  }

  predicate Present(f: Freshness, k: TsField) {
    RawTs(f, k).Some? && Text.NonBlank(RawTs(f, k).value)
  }

  /** `int(x)` of a quotient: toward zero. */
  function TruncatedSeconds(micros: int): int {
    if micros >= 0 then micros / SECOND else -((-micros) / SECOND)
  }

  function AgeSeconds(now: int, ts: int): int {
    if TruncatedSeconds(now - ts) > 0 then TruncatedSeconds(now - ts) else 0
  }

  /** `sorted(missing_fields)`. */
  function MissingFields(f: Freshness): seq<TsField> {
    (if Present(f, OrdersTs) then [] else [OrdersTs]) + (if Present(f, PositionTs) then [] else [PositionTs])
  }

  predicate Parses(iso: Clock, f: Freshness, k: TsField) {
    Present(f, k) && iso(RawTs(f, k).value).Some?
  }

  function Ts(iso: Clock, f: Freshness, k: TsField): int
    requires Parses(iso, f, k)
  {
    iso(RawTs(f, k).value).value
  }

  /** The threshold and both timestamps are there and can be read. */
  predicate FreshnessDecidable(iso: Clock, expected: Option<Freshness>, observed: Option<Freshness>) {
    && ResolveMaxAge(expected, observed).Some? && observed.Some?
    && Parses(iso, observed.value, OrdersTs) && Parses(iso, observed.value, PositionTs)
  }

  /** Without ages: the timestamp lies at least `max_age + 1` whole seconds back. */
  predicate Expired(now: int, ts: int, maxAge: int) {
    now >= ts + (maxAge + 1) * SECOND
  }

  function FreshnessVerdict(iso: Clock, expected: Option<Freshness>, observed: Option<Freshness>, now: int): Severity {
    if !FreshnessDecidable(iso, expected, observed) then Unknown
    else
      var maxAge := ResolveMaxAge(expected, observed).value;
      if Expired(now, Ts(iso, observed.value, OrdersTs), maxAge)
         || Expired(now, Ts(iso, observed.value, PositionTs), maxAge)
      then Warning else Ok
  }

  lemma AgeExpires(now: int, ts: int, maxAge: int)
    requires maxAge > 0
    ensures AgeSeconds(now, ts) > maxAge <==> Expired(now, ts, maxAge)
    ensures ts >= now ==> AgeSeconds(now, ts) == 0
  {
  }

  /** Whole seconds that have passed; none for a time to come. */
  predicate WholeSeconds(passed: int, seconds: int) {
    if passed < 0 then seconds == 0 else seconds * 1_000_000 <= passed < (seconds + 1) * 1_000_000
  }

  predicate Stamped(ts: Option<string>) {
    ts.Some? && Text.NonBlank(ts.value)
  }

  /** The check of observed timestamps against a threshold, said on the two fields. */
  predicate Judged(iso: Clock, f: Freshness, maxAge: int, now: int, check: FreshnessCheck) {
    if !Stamped(f.positionTs) || !Stamped(f.ordersTs) then
      check == TimestampsMissing((if Stamped(f.ordersTs) then [] else [OrdersTs])
                                 + (if Stamped(f.positionTs) then [] else [PositionTs]))
    else if iso(f.ordersTs.value).None? then check == TimestampInvalid(OrdersTs)
    else if iso(f.positionTs.value).None? then check == TimestampInvalid(PositionTs)
    else
      var orders, position := iso(f.ordersTs.value).value, iso(f.positionTs.value).value;
      var ordersStale := now - orders >= (maxAge + 1) * 1_000_000;
      var positionStale := now - position >= (maxAge + 1) * 1_000_000;
      var stale := (if ordersStale then [OrdersTs] else []) + (if positionStale then [PositionTs] else []);
      && (check.Stale? || check.Fresh?) && check.ages.Keys == {OrdersTs, PositionTs}
      && WholeSeconds(now - orders, check.ages[OrdersTs]) && WholeSeconds(now - position, check.ages[PositionTs])
      && (check.Stale? <==> ordersStale || positionStale)
      && (check.Stale? ==> check.fields == stale)
  }

  predicate JudgedBy(iso: Clock, observed: Option<Freshness>, maxAge: int, now: int, check: FreshnessCheck) {
    if observed.None? then check == NoObservedFreshness else Judged(iso, observed.value, maxAge, now, check)
  }

  /** The threshold of a payload, if it carries a positive one. */
  predicate Sets(f: Option<Freshness>, maxAge: int) {
    f.Some? && f.value.maxAgeSeconds == Some(maxAge) && maxAge > 0
  }

  /** The check in full: a positive threshold of the observed payload counts, whatever the expected one says;
      otherwise that of the expected payload; without either nothing can be told. */
  ghost predicate FreshnessMeant(iso: Clock, expected: Option<Freshness>, observed: Option<Freshness>, now: int,
                                 check: FreshnessCheck) {
    && (forall m :: Sets(observed, m) ==> JudgedBy(iso, observed, m, now, check))
    && (forall m :: !(exists n :: Sets(observed, n)) && Sets(expected, m) ==> JudgedBy(iso, observed, m, now, check))
    && (!(exists n :: Sets(observed, n)) && !(exists m :: Sets(expected, m)) ==> check == NoThreshold)
  }

  lemma SecondsOfAge(now: int, ts: int)
    ensures WholeSeconds(now - ts, AgeSeconds(now, ts))
  {
  }

  /** The ages by field, or the first field that cannot be read. */
  method ReadAges(iso: Clock, f: Freshness, now: int) returns (unread: Option<TsField>, ages: map<TsField, int>)
    requires Present(f, OrdersTs) && Present(f, PositionTs)
    ensures unread == if !Parses(iso, f, OrdersTs) then Some(OrdersTs)
      else if !Parses(iso, f, PositionTs) then Some(PositionTs) else None
    ensures unread.None? ==>
      ages == map[OrdersTs := AgeSeconds(now, Ts(iso, f, OrdersTs)),
                  PositionTs := AgeSeconds(now, Ts(iso, f, PositionTs))]
  {
    hide Present, RawTs, AgeSeconds;
    ages := map[];
    for n := 0 to |TS_FIELDS|
      invariant forall k: TsField <- TS_FIELDS[..n] :: Parses(iso, f, k)
      invariant ages.Keys == set k <- TS_FIELDS[..n]
      invariant forall k: TsField <- TS_FIELDS[..n] :: ages[k] == AgeSeconds(now, Ts(iso, f, k))
    {
      var key := TS_FIELDS[n];
      assert TS_FIELDS[..n + 1] == TS_FIELDS[..n] + [key];
      assert Present(f, key) by { TwoFields(key); }
      assert n == 1 ==> TS_FIELDS[..n][0] == OrdersTs;
      var parsed := ReadTs(iso, f, key);
      if parsed.None? {
        return Some(key), ages;
      }
      ages := ages[key := AgeSeconds(now, parsed.value)];
    }
    assert TS_FIELDS[..|TS_FIELDS|] == TS_FIELDS;
    assert OrdersTs == TS_FIELDS[0] && PositionTs == TS_FIELDS[1];
    unread := None;
  }

  method StaleFields(ages: map<TsField, int>, maxAge: int) returns (stale: seq<TsField>)
    requires ages.Keys == {OrdersTs, PositionTs}
    ensures stale == (if ages[OrdersTs] > maxAge then [OrdersTs] else [])
                     + (if ages[PositionTs] > maxAge then [PositionTs] else [])
  {
    stale := [];
    for n := 0 to |TS_FIELDS|
      invariant stale == (if n > 0 && ages[OrdersTs] > maxAge then [OrdersTs] else [])
                         + (if n > 1 && ages[PositionTs] > maxAge then [PositionTs] else [])
    {
      var key := TS_FIELDS[n];
      assert key in ages.Keys by { TwoFields(key); }
      if ages[key] > maxAge {
        stale := stale + [key];
      }
    }
  }

  /** `_compare_freshness`. Ages count whole seconds, a timestamp in the future counts as age 0. */
  method CompareFreshness(iso: Clock, expected: Option<Freshness>, observed: Option<Freshness>, now: int)
    returns (check: FreshnessCheck)
    ensures FreshnessMeant(iso, expected, observed, now, check)
    ensures check.Severity() == FreshnessVerdict(iso, expected, observed, now)
    ensures check.Stale? || check.Fresh? ==>
      FreshnessDecidable(iso, expected, observed)
      && check.ages == map[OrdersTs := AgeSeconds(now, Ts(iso, observed.value, OrdersTs)),
                           PositionTs := AgeSeconds(now, Ts(iso, observed.value, PositionTs))]
    ensures check.Stale? ==> forall k: TsField ::
      k in check.fields <==> k in check.ages && check.ages[k] > ResolveMaxAge(expected, observed).value
  {
    hide AgeSeconds, TruncatedSeconds, Expired, FreshnessMeant, Judged, Text.NonBlank;
    var maxAge := ResolveMaxAge(expected, observed);
    if maxAge.None? {
      ThresholdMissing(iso, expected, observed, now);
      return NoThreshold;
    }
    if observed.None? {
      ObservedMissing(iso, expected, now);
      return NoObservedFreshness;
    }
    var f := observed.value;
    var missing := MissingFields(f);
    if missing != [] {
      Resolved(iso, expected, f, now, TimestampsMissing(missing));
      Unstamped(iso, f, maxAge.value, now);
      return TimestampsMissing(missing);
    }
    var unread, ages := ReadAges(iso, f, now);
    if unread.Some? {
      Resolved(iso, expected, f, now, TimestampInvalid(unread.value));
      Unreadable(iso, f, maxAge.value, now);
      return TimestampInvalid(unread.value);
    }
    var stale := StaleFields(ages, maxAge.value);
    AgeExpires(now, Ts(iso, f, OrdersTs), maxAge.value);
    AgeExpires(now, Ts(iso, f, PositionTs), maxAge.value);
    check := if stale != [] then Stale(stale, ages) else Fresh(ages);
    Aged(iso, f, maxAge.value, now, stale, ages);
    Resolved(iso, expected, f, now, check);
  }

  /** Which threshold counts. */
  lemma Resolved(iso: Clock, expected: Option<Freshness>, f: Freshness, now: int, check: FreshnessCheck)
    requires ResolveMaxAge(expected, Some(f)).Some?
    ensures ResolveMaxAge(expected, Some(f)).value > 0
    ensures Judged(iso, f, ResolveMaxAge(expected, Some(f)).value, now, check) ==>
      FreshnessMeant(iso, expected, Some(f), now, check)
  {
    hide Judged;
    var m := ResolveMaxAge(expected, Some(f)).value;
    assert Sets(Some(f), m) || Sets(expected, m);
    assert Usable(Some(f)).Some? ==> Sets(Some(f), m);
  }

  lemma ThresholdMissing(iso: Clock, expected: Option<Freshness>, observed: Option<Freshness>, now: int)
    requires ResolveMaxAge(expected, observed).None?
    ensures FreshnessMeant(iso, expected, observed, now, NoThreshold)
  {
    hide Judged;
  }

  lemma ObservedMissing(iso: Clock, expected: Option<Freshness>, now: int)
    requires ResolveMaxAge(expected, None).Some?
    ensures FreshnessMeant(iso, expected, None, now, NoObservedFreshness)
  {
    hide Judged;
    assert Sets(expected, ResolveMaxAge(expected, None).value);
  }

  lemma Unstamped(iso: Clock, f: Freshness, maxAge: int, now: int)
    requires !Present(f, PositionTs) || !Present(f, OrdersTs)
    ensures Judged(iso, f, maxAge, now, TimestampsMissing(MissingFields(f)))
  {
  }

  lemma Unreadable(iso: Clock, f: Freshness, maxAge: int, now: int)
    requires Present(f, PositionTs) && Present(f, OrdersTs)
    ensures !Parses(iso, f, OrdersTs) ==> Judged(iso, f, maxAge, now, TimestampInvalid(OrdersTs))
    ensures Parses(iso, f, OrdersTs) && !Parses(iso, f, PositionTs) ==>
      Judged(iso, f, maxAge, now, TimestampInvalid(PositionTs))
  {
  }

  lemma Aged(iso: Clock, f: Freshness, maxAge: int, now: int, stale: seq<TsField>, ages: map<TsField, int>)
    requires Parses(iso, f, OrdersTs) && Parses(iso, f, PositionTs) && maxAge > 0
    requires ages == map[OrdersTs := AgeSeconds(now, Ts(iso, f, OrdersTs)),
                         PositionTs := AgeSeconds(now, Ts(iso, f, PositionTs))]
    requires stale == (if ages[OrdersTs] > maxAge then [OrdersTs] else [])
                      + (if ages[PositionTs] > maxAge then [PositionTs] else [])
    ensures Judged(iso, f, maxAge, now, if stale != [] then Stale(stale, ages) else Fresh(ages))
  {
    hide AgeSeconds, TruncatedSeconds, WholeSeconds;
    AgeExpires(now, Ts(iso, f, OrdersTs), maxAge);
    AgeExpires(now, Ts(iso, f, PositionTs), maxAge);
    SecondsOfAge(now, Ts(iso, f, OrdersTs));
    SecondsOfAge(now, Ts(iso, f, PositionTs));
  }

  function ReadTs(iso: Clock, f: Freshness, k: TsField): (r: Option<int>)
    requires Present(f, k)
    ensures r.Some? <==> Parses(iso, f, k)
    ensures r.Some? ==> r.value == Ts(iso, f, k)
  {
    iso(RawTs(f, k).value)
  }

  lemma TwoFields(k: TsField)
    ensures k == OrdersTs || k == PositionTs
  {
  }

  /** Time only makes a verdict staler: with the same payloads a later clock may turn ok into warning and
      changes nothing else. */
  lemma LaterClock(iso: Clock, expected: Option<Freshness>, observed: Option<Freshness>, now: int, later: int)
    requires now <= later
    ensures var a := FreshnessVerdict(iso, expected, observed, now);
      var b := FreshnessVerdict(iso, expected, observed, later);
      a == b || (a == Ok && b == Warning)
  {
  }

  /** Observed payloads that differ at most in their threshold. */
  predicate SameStamps(a: Option<Freshness>, b: Option<Freshness>) {
    if a.None? then b.None?
    else b.Some? && a.value.ordersTs == b.value.ordersTs && a.value.positionTs == b.value.positionTs
  }

  /** A larger threshold only makes it fresher, whichever payload the thresholds come from. */
  lemma LargerThreshold(iso: Clock, expected: Option<Freshness>, observed: Option<Freshness>,
                        expected': Option<Freshness>, observed': Option<Freshness>, now: int)
    requires SameStamps(observed, observed')
    requires ResolveMaxAge(expected, observed).Some? && ResolveMaxAge(expected', observed').Some?
    requires ResolveMaxAge(expected, observed).value <= ResolveMaxAge(expected', observed').value
    ensures var a := FreshnessVerdict(iso, expected, observed, now);
      var b := FreshnessVerdict(iso, expected', observed', now);
      a == b || (a == Warning && b == Ok)
  {
    assert FreshnessDecidable(iso, expected, observed) <==> FreshnessDecidable(iso, expected', observed');
  }

  // ---------------------------------------------------------------- roll-up

  /** `_SEVERITY_PRECEDENCE`. */
  function Precedence(s: Severity): nat {
    match s
    case Ok => 0
    case Warning => 1
    case Unknown => 2
    case Mismatch => 3
  }

  function Join(a: Severity, b: Severity): Severity {
    if Precedence(a) < Precedence(b) then b else a
  }

  /** `max` by precedence: the first of the worst. */
  function Worst(checks: seq<Severity>): Severity
    requires checks != []
  {
    if |checks| == 1 then checks[0] else Join(Worst(checks[..|checks| - 1]), checks[|checks| - 1])
  }

  function RollupStatus(checks: seq<Severity>): Severity {
    if checks == [] then Unknown else Worst(checks)
  }

  function Count(checks: seq<Severity>, s: Severity): nat {
    multiset(checks)[s]
  }

  /** `_summarize_checks`. */
  method SummarizeChecks(checks: seq<Severity>) returns (summary: map<Severity, nat>)
    ensures summary.Keys == {Ok, Warning, Mismatch, Unknown}
    ensures forall s <- summary :: summary[s] == Count(checks, s)
  {
    summary := map[Ok := 0, Warning := 0, Mismatch := 0, Unknown := 0];
    for n := 0 to |checks|
      invariant summary.Keys == {Ok, Warning, Mismatch, Unknown}
      invariant forall s <- summary :: summary[s] == Count(checks[..n], s)
    {
      assert checks[..n + 1] == checks[..n] + [checks[n]];
      AllSeverities(checks[n]);
      summary := summary[checks[n] := summary[checks[n]] + 1];
    }
    assert checks[..|checks|] == checks;
  }

  lemma AllSeverities(s: Severity)
    ensures s in {Ok, Warning, Mismatch, Unknown}
  {
    match s { case Ok => case Warning => case Unknown => case Mismatch => }
  }

  /** The roll-up is one of the severities and none is worse. */
  lemma {:induction false} WorstIsJoin(checks: seq<Severity>)
    requires checks != []
    ensures Worst(checks) in checks && forall c <- checks :: Precedence(c) <= Precedence(Worst(checks))
  {
    if |checks| > 1 {
      var init, last := checks[..|checks| - 1], checks[|checks| - 1];
      WorstIsJoin(init);
      assert forall c <- checks :: c == last || c in init;
    } else {
      assert forall c <- checks :: c == checks[0];
    }
  }

  /** The roll-up in words: mismatch beats unknown beats warning beats ok, and no checks are unknown. */
  lemma RollupMeaning(checks: seq<Severity>)
    ensures RollupStatus(checks) == Mismatch <==> Mismatch in checks
    ensures RollupStatus(checks) == Unknown <==> Mismatch !in checks && (Unknown in checks || checks == [])
    ensures RollupStatus(checks) == Warning <==> Mismatch !in checks && Unknown !in checks && Warning in checks
    ensures RollupStatus(checks) == Ok <==> checks != [] && forall c <- checks :: c == Ok
  {
    hide Worst;
    if checks != [] {
      WorstIsJoin(checks);
      AllSeverities(Worst(checks));
      forall c <- checks ensures c in {Ok, Warning, Mismatch, Unknown} { AllSeverities(c); }
    }
  }

  lemma PrecedenceInjective(a: Severity, b: Severity)
    requires Precedence(a) == Precedence(b)
    ensures a == b
  {
  }

  /** Order does not matter. */
  lemma RollupPermuted(a: seq<Severity>, b: seq<Severity>)
    requires multiset(a) == multiset(b)
    ensures RollupStatus(a) == RollupStatus(b)
  {
    assert |multiset(a)| == |a| && |multiset(b)| == |b|;
    if a != [] {
      WorstIsJoin(a);
      WorstIsJoin(b);
      assert Worst(a) in multiset(b) && Worst(b) in multiset(a);
      PrecedenceInjective(Worst(a), Worst(b));
    }
  }

  /** Rolling up in parts is rolling up the whole. */
  lemma RollupConcat(a: seq<Severity>, b: seq<Severity>)
    requires a != [] && b != []
    ensures RollupStatus(a + b) == Join(RollupStatus(a), RollupStatus(b))
  {
    WorstIsJoin(a);
    WorstIsJoin(b);
    WorstIsJoin(a + b);
    assert Worst(a) in a + b && Worst(b) in a + b;
    PrecedenceInjective(Worst(a + b), Join(Worst(a), Worst(b)));
  }

  /** `result["pass"]`. */
  predicate Pass(checks: seq<Severity>) {
    Count(checks, Mismatch) == 0 && Count(checks, Unknown) == 0
  }

  /** `reconcile check` exits 1 on mismatch and unknown. */
  function ExitCode(status: Severity): int {
    if status == Mismatch || status == Unknown then 1 else 0
  }

  /** Counts, roll-up and exit code tell one story. */
  lemma RollupCoherent(checks: seq<Severity>)
    requires checks != []
    ensures Count(checks, Ok) + Count(checks, Warning) + Count(checks, Mismatch) + Count(checks, Unknown) == |checks|
    ensures Pass(checks) <==> RollupStatus(checks) in {Ok, Warning}
    ensures Pass(checks) <==> ExitCode(RollupStatus(checks)) == 0
  {
    CountsSum(checks);
    WorstIsJoin(checks);
    var worst := Worst(checks);
    assert worst in multiset(checks);
    assert Mismatch in multiset(checks) <==> Mismatch in checks;
    assert Unknown in multiset(checks) <==> Unknown in checks;
    AllSeverities(worst);
  }

  lemma {:induction false} CountsSum(checks: seq<Severity>)
    ensures Count(checks, Ok) + Count(checks, Warning) + Count(checks, Mismatch) + Count(checks, Unknown) == |checks|
  {
    if checks != [] {
      var init, last := checks[..|checks| - 1], checks[|checks| - 1];
      CountsSum(init);
      assert checks == init + [last];
      AllSeverities(last);
    }
  }

  // ---------------------------------------------------------------- the whole check

  datatype Payload = Payload(position: Position, openOrders: seq<Order>, freshness: Option<Freshness>)

  datatype ReconciliationResult = ReconciliationResult(status: Severity, checks: seq<Severity>,
                                                       summary: map<Severity, nat>, pass: bool)

  /** Tail of `run_reconciliation_check`, for payloads that passed validation. */
  method RunReconciliationCheck(read: Reader, iso: Clock, expected: Payload, observed: Payload, now: int)
    returns (result: ReconciliationResult)
    ensures result.checks == [
      PositionVerdict(read, expected.position, observed.position),
      Verdict(read, expected.openOrders, observed.openOrders),
      FreshnessVerdict(iso, expected.freshness, observed.freshness, now)]
    ensures result.status == RollupStatus(result.checks)
    ensures result.summary.Keys == {Ok, Warning, Mismatch, Unknown}
    ensures forall s <- result.summary :: result.summary[s] == Count(result.checks, s)
    ensures result.pass <==>
      && PositionVerdict(read, expected.position, observed.position) == Ok
      && Verdict(read, expected.openOrders, observed.openOrders) == Ok
      && FreshnessVerdict(iso, expected.freshness, observed.freshness, now) in {Ok, Warning}
    ensures result.pass <==> ExitCode(result.status) == 0
  {
    var position := ComparePosition(read, expected.position, observed.position);
    var orders := CompareOpenOrders(read, expected.openOrders, observed.openOrders);
    var freshness := CompareFreshness(iso, expected.freshness, observed.freshness, now);
    result := Conclude([position.Severity(), orders.Severity(), freshness.Severity()]);
    ThreeChecks(result.checks[0], result.checks[1], result.checks[2]);
    assert PositionVerdict(read, expected.position, observed.position) != Warning;
    RollupCoherent(result.checks);
  }

  method Conclude(checks: seq<Severity>) returns (result: ReconciliationResult)
    ensures result.checks == checks && result.status == RollupStatus(checks) && (result.pass <==> Pass(checks))
    ensures result.summary.Keys == {Ok, Warning, Mismatch, Unknown}
    ensures forall s <- result.summary :: result.summary[s] == Count(checks, s)
  {
    var summary := SummarizeChecks(checks);
    var pass := summary[Mismatch] == 0 && summary[Unknown] == 0;
    result := ReconciliationResult(RollupStatus(checks), checks, summary, pass);
  }

  lemma CountThree(a: Severity, b: Severity, c: Severity, s: Severity)
    ensures Count([a, b, c], s) == 0 <==> a != s && b != s && c != s
  {
    assert multiset([a, b, c]) == multiset{a, b, c};
  }

  lemma ThreeChecks(a: Severity, b: Severity, c: Severity)
    ensures Pass([a, b, c]) <==> a in {Ok, Warning} && b in {Ok, Warning} && c in {Ok, Warning}
  {
    hide Count;
    CountThree(a, b, c, Mismatch);
    CountThree(a, b, c, Unknown);
    AllSeverities(a);
    AllSeverities(b);
    AllSeverities(c);
  }
}
