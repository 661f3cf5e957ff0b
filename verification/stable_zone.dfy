/**
 The stable-zone decision: group a window of reads by location, rank the locations by
 read count, median signal strength and zone id, and accept the leader only when it has
 enough reads and is not in a close tie. Signal strengths are reals and the rounding of
 the confidence to four digits is left out.
 */
module StableZones {
  import opened Basics
  import opened Observations
  import opened OrderedDicts
  import opened Ranks
  import opened Sorting

  const MEDIAN_MARGIN: real := 3.0
  const MINIMUM_DECIDED_CONFIDENCE: real := 0.40

  datatype Decision = Decision(location: Location, confidence: real, observedAt: Time, receivedAt: Time)

  type Window = seq<Observation>

  // ----- Grouping -----

  function AddToGroup(groups: Dict<Location, Window>, o: Observation): Dict<Location, Window> {
    match Get(groups, o.location)
    case None => Put(groups, o.location, [o])
    case Some(w) => Put(groups, o.location, w + [o])
  }

  function Grouped(window: Window): Dict<Location, Window> {
    if window == [] then []
    else AddToGroup(Grouped(window[..|window| - 1]), window[|window| - 1])
  }

  /** The reads of a window at one location. */
  function ReadsAt(window: Window, l: Location): (group: Window)
    ensures forall o :: o in group <==> o in window && o.location == l
  {
    if window == [] then []
    else
      var front := ReadsAt(window[..|window| - 1], l);
      var last := window[|window| - 1];
      assert forall o :: o in window <==> o in window[..|window| - 1] || o == last;
      if last.location == l then front + [last] else front
  }

  // ----- Median and ranking -----

  function Strengths(group: Window): seq<real> {
    seq(|group|, i requires 0 <= i < |group| => group[i].rssi)
  }

  function MedianOf(values: seq<real>): real
    requires values != []
  {
    var sorted := SortBy(values, AscendingReal);
    SortPermutes(values, AscendingReal);
    assert |sorted| == |multiset(sorted)| == |multiset(values)| == |values|;
    var n := |sorted|;
    if n % 2 == 1 then sorted[n / 2] else (sorted[n / 2 - 1] + sorted[n / 2]) / 2.0
  }

  /** The middle of the sorted values is the median by counting, and there is no other. */
  lemma MedianIsMiddle(values: seq<real>, m: real)
    requires values != []
    ensures IsMedian(values, m) <==> m == MedianOf(values)
  {
    var sorted := SortBy(values, AscendingReal);
    var half := |values| / 2;
    SortedRank(values, half);
    if |values| % 2 == 0 {
      SortedRank(values, half - 1);
      SortOrders(values, AscendingReal);
      assert AscendingReal(sorted[half - 1], sorted[half]);
    }
    assert IsMedian(values, MedianOf(values));
    if IsMedian(values, m) {
      MedianIsUnique(values, m, MedianOf(values));
    }
  }

  function MedianRssi(group: Window): real
    requires group != []
  {
    MedianOf(Strengths(group))
  }

  datatype RankKey = RankKey(count: nat, median: real, zone: ZoneId) {
    predicate AtLeast(other: RankKey) {
      count > other.count
      || (count == other.count
          && (median > other.median || (median == other.median && zone >= other.zone)))
    }
  }

  function KeyOf(entry: (Location, Window)): RankKey {
    RankKey(|entry.1|, if entry.1 == [] then 0.0 else MedianRssi(entry.1), entry.0.zone)
  }

  const Descending: ((Location, Window), (Location, Window)) -> bool :=
    (a: (Location, Window), b: (Location, Window)) => KeyOf(a).AtLeast(KeyOf(b))

  // ----- Newest read and confidence -----

  predicate NewerThan(a: Observation, b: Observation) {
    a.observedAt > b.observedAt
    || (a.observedAt == b.observedAt
        && (a.receivedAt > b.receivedAt || (a.receivedAt == b.receivedAt && a.eventId > b.eventId)))
  }

  function NewestRead(group: Window): (o: Observation)
    requires group != []
    ensures o in group
    ensures forall p :: p in group ==> !NewerThan(p, o)
  {
    if |group| == 1 then group[0]
    else
      var front := NewestRead(group[..|group| - 1]);
      var last := group[|group| - 1];
      assert forall p :: p in group ==> p in group[..|group| - 1] || p == last;
      if NewerThan(last, front) then last else front
  }

  function Confidence(count: nat, separation: Option<real>, newest: Observation, settings: Settings): real
    requires 1 <= settings.confirmationReads && 1 <= settings.confirmationWindow
  {
    var consistency := MinReal(1.0, count as real / settings.confirmationReads as real);
    var apart := if separation.None? then 1.0 else MinReal(1.0, MaxReal(0.0, separation.value) / 12.0);
    var age := MaxReal(0.0, (newest.receivedAt - newest.observedAt) as real);
    var recency := MaxReal(0.0, 1.0 - age / settings.confirmationWindow as real);
    var score := 0.40 * consistency + 0.25 * apart + 0.25 * recency + 0.10 * newest.readerHealth;
    MaxReal(0.0, MinReal(1.0, score))
  }

  function Ranked(window: Window): Dict<Location, Window> {
    SortBy(Grouped(window), Descending)
  }

  /** The verdict on the leading location, given the reads of the next one. */
  function Judge(location: Location, winning: Window, competing: Window, settings: Settings): Option<Decision>
    requires 1 <= settings.confirmationReads && 1 <= settings.confirmationWindow
  {
    if |winning| < settings.confirmationReads then None
    else
      var separation := if competing == [] then None else Some(MedianRssi(winning) - MedianRssi(competing));
      if separation.Some? && |winning| == |competing| && separation.value < MEDIAN_MARGIN then None
      else
        var newest := NewestRead(winning);
        Some(Decision(
               location,
               Confidence(|winning|, separation, newest, settings),
               newest.observedAt,
               newest.receivedAt))
  }

  function InferStableZone(window: Window, settings: Settings): Option<Decision>
    requires 1 <= settings.confirmationReads && 1 <= settings.confirmationWindow
  {
    var ranked := Ranked(window);
    if ranked == [] then None
    else Judge(ranked[0].0, ranked[0].1, if |ranked| > 1 then ranked[1].1 else [], settings)
  }

  // ----- What the grouping and the ranking compute -----

  lemma {:induction false} GroupedIsReadsAt(window: Window, l: Location)
    ensures Distinct(Grouped(window))
    ensures Get(Grouped(window), l) == if ReadsAt(window, l) == [] then None else Some(ReadsAt(window, l))
  {
    if window != [] {
      var front := window[..|window| - 1];
      var last := window[|window| - 1];
      GroupedIsReadsAt(front, l);
      GroupedIsReadsAt(front, last.location);
      var groups := Grouped(front);
      var w := if Get(groups, last.location).Some? then Get(groups, last.location).value + [last] else [last];
      assert Grouped(window) == Put(groups, last.location, w);
      PutGet(groups, last.location, w, l);
      PutDistinct(groups, last.location, w);
      if last.location == l {
        assert w == ReadsAt(front, l) + [last];
      }
    }
  }

  lemma {:induction false} EntryByKey<K, V>(d: Dict<K, V>, i: nat)
    requires Distinct(d) && i < |d|
    ensures Get(d, d[i].0) == Some(d[i].1)
  {
    if i > 0 {
      EntryByKey(d[1..], i - 1);
      assert Contains(d[1..], d[i].0);
    }
  }

  lemma {:induction false} EntryExists<K, V>(d: Dict<K, V>, k: K)
    requires Contains(d, k)
    ensures (k, Get(d, k).value) in d
  {
    if d[0].0 != k {
      EntryExists(d[1..], k);
    }
  }

  /** Locations that occur in a window, each with all of its reads and nothing else. */
  ghost predicate Occurs(window: Window, l: Location) {
    ReadsAt(window, l) != []
  }

  function KeyAt(window: Window, l: Location): RankKey {
    KeyOf((l, ReadsAt(window, l)))
  }

  lemma RankedEntries(window: Window)
    ensures
      var ranked := Ranked(window);
      && Ordered(ranked, Descending)
      && (forall e :: e in ranked <==> Occurs(window, e.0) && e.1 == ReadsAt(window, e.0))
      && (forall i, j :: 0 <= i < j < |ranked| ==> ranked[i] != ranked[j])
  {
    var groups := Grouped(window);
    var ranked := SortBy(groups, Descending);
    SortOrders(groups, Descending);
    SortPermutes(groups, Descending);
    forall e
      ensures e in ranked <==> Occurs(window, e.0) && e.1 == ReadsAt(window, e.0)
    {
      assert e in ranked <==> e in multiset(ranked);
      assert e in groups <==> e in multiset(groups);
      GroupedIsReadsAt(window, e.0);
      if e in groups {
        var i :| 0 <= i < |groups| && groups[i] == e;
        EntryByKey(groups, i);
      } else if Occurs(window, e.0) {
        EntryExists(groups, e.0);
      }
    }
    forall i, j | 0 <= i < j < |ranked|
      ensures ranked[i] != ranked[j]
    {
      assert multiset(groups)[ranked[i]] <= 1 by {
        GroupedIsReadsAt(window, ranked[i].0);
        DistinctOnce(groups, ranked[i]);
      }
      TwiceInMultiset(ranked, i, j);
    }
  }

  lemma {:induction false} DistinctOnce<K, V>(d: Dict<K, V>, e: (K, V))
    requires Distinct(d)
    ensures multiset(d)[e] <= 1
  {
    if d != [] {
      DistinctOnce(d[1..], e);
      assert d == [d[0]] + d[1..];
      if d[0] == e && e in d[1..] {
        var i :| 0 <= i < |d[1..]| && d[1..][i] == e;
        HasKey(d[1..], i);
      }
    }
  }

  lemma {:induction false} HasKey<K, V>(d: Dict<K, V>, i: nat)
    requires i < |d|
    ensures Contains(d, d[i].0)
  {
    if i > 0 {
      HasKey(d[1..], i - 1);
    }
  }

  lemma TwiceInMultiset<T>(s: seq<T>, i: nat, j: nat)
    requires i < j < |s|
    ensures s[i] == s[j] ==> multiset(s)[s[i]] >= 2
  {
    assert s == s[..j] + [s[j]] + s[j + 1..];
    assert s[i] in s[..j];
    assert s[i] in multiset(s[..j]);
  }

  // ----- The decision, said without sorting -----

  /** The foreign key from zones to stores: a zone belongs to one store. */
  ghost predicate OneStorePerZone(window: Window) {
    forall o, p :: o in window && p in window && o.location.zone == p.location.zone ==> o.location == p.location
  }

  /** Event ids are the identity of observations. */
  ghost predicate IdentifiedById(window: Window) {
    forall o, p :: o in window && p in window && o.eventId == p.eventId ==> o == p
  }

  ghost predicate Beats(window: Window, w: Location, l: Location) {
    KeyAt(window, w).AtLeast(KeyAt(window, l))
  }

  /** The best location of those not excluded. */
  ghost predicate Best(window: Window, w: Location, except: set<Location>) {
    && Occurs(window, w) && w !in except
    && forall l :: Occurs(window, l) && l !in except ==> Beats(window, w, l)
  }

  lemma OccursByRead(window: Window, l: Location) returns (o: Observation)
    requires Occurs(window, l)
    ensures o in window && o.location == l
  {
    o := ReadsAt(window, l)[0];
    assert o in ReadsAt(window, l);
  }

  lemma BestIsUnique(window: Window, v: Location, w: Location, except: set<Location>)
    requires OneStorePerZone(window) && Best(window, v, except) && Best(window, w, except)
    ensures v == w
  {
    var o := OccursByRead(window, v);
    var p := OccursByRead(window, w);
    assert Beats(window, v, w) && Beats(window, w, v);
  }

  lemma RankedEntry(window: Window, i: nat)
    requires i < |Ranked(window)|
    ensures Occurs(window, Ranked(window)[i].0)
    ensures Ranked(window)[i].1 == ReadsAt(window, Ranked(window)[i].0)
    ensures KeyOf(Ranked(window)[i]) == KeyAt(window, Ranked(window)[i].0)
  {
    RankedEntries(window);
    assert Ranked(window)[i] in Ranked(window);
  }

  lemma RankedIndex(window: Window, l: Location) returns (j: nat)
    requires Occurs(window, l)
    ensures j < |Ranked(window)| && Ranked(window)[j] == (l, ReadsAt(window, l))
  {
    RankedEntries(window);
    assert (l, ReadsAt(window, l)) in Ranked(window);
    j :| 0 <= j < |Ranked(window)| && Ranked(window)[j] == (l, ReadsAt(window, l));
  }

  /** Entry i is the best location once the locations ranked before it are set aside. */
  lemma RankedBest(window: Window, i: nat, except: set<Location>)
    requires i < |Ranked(window)|
    requires forall k :: 0 <= k < i ==> Ranked(window)[k].0 in except
    requires Ranked(window)[i].0 !in except
    ensures Best(window, Ranked(window)[i].0, except)
  {
    var ranked := Ranked(window);
    RankedEntry(window, i);
    forall l | Occurs(window, l) && l !in except
      ensures Beats(window, ranked[i].0, l)
    {
      var j := RankedIndex(window, l);
      RankedEntry(window, j);
      if i < j {
        RankedEntries(window);
        assert Descending(ranked[i], ranked[j]);
      }
    }
  }

  /** The first ranked entry is the best location, the second the best of the others. */
  lemma RankedTop(window: Window)
    ensures
      var ranked := Ranked(window);
      && (ranked == [] ==> forall l :: !Occurs(window, l))
      && (ranked != [] ==> Best(window, ranked[0].0, {}) && ranked[0].1 == ReadsAt(window, ranked[0].0))
      && (|ranked| > 1 ==> Best(window, ranked[1].0, {ranked[0].0})
                           && ranked[1].1 == ReadsAt(window, ranked[1].0))
      && (|ranked| == 1 ==> forall l :: Occurs(window, l) ==> l == ranked[0].0)
  {
    var ranked := Ranked(window);
    if ranked != [] {
      RankedEntry(window, 0);
      RankedBest(window, 0, {});
    }
    if |ranked| > 1 {
      RankedEntry(window, 1);
      RankedEntries(window);
      assert ranked[0] != ranked[1];
      RankedBest(window, 1, {ranked[0].0});
    } else {
      forall l | Occurs(window, l)
        ensures ranked != [] && l == ranked[0].0
      {
        var j := RankedIndex(window, l);
      }
    }
  }

  function Count(window: Window, l: Location): nat { |ReadsAt(window, l)| }

  function Median(window: Window, l: Location): real {
    if ReadsAt(window, l) == [] then 0.0 else MedianRssi(ReadsAt(window, l))
  }

  /** By every measure of the middle, l is clearly weaker than w. */
  ghost predicate ClearlyWeaker(window: Window, l: Location, w: Location) {
    forall m, n :: IsMedian(Strengths(ReadsAt(window, l)), m) && IsMedian(Strengths(ReadsAt(window, w)), n) ==>
      m <= n - 3.0
  }

  /** Enough reads, and every other location has fewer reads or a clearly weaker median. */
  ghost predicate Decisive(window: Window, w: Location, settings: Settings) {
    && Occurs(window, w)
    && settings.confirmationReads <= Count(window, w)
    && forall l :: Occurs(window, l) && l != w ==>
         Count(window, l) < Count(window, w)
         || (Count(window, l) == Count(window, w) && ClearlyWeaker(window, l, w))
  }

  lemma WeakerByMedian(window: Window, l: Location, w: Location)
    requires Occurs(window, l) && Occurs(window, w)
    ensures ClearlyWeaker(window, l, w) <==> Median(window, l) <= Median(window, w) - MEDIAN_MARGIN
  {
    var a, b := Strengths(ReadsAt(window, l)), Strengths(ReadsAt(window, w));
    MedianIsMiddle(a, MedianOf(a));
    MedianIsMiddle(b, MedianOf(b));
    forall m, n | IsMedian(a, m) && IsMedian(b, n)
      ensures m == Median(window, l) && n == Median(window, w)
    {
      MedianIsMiddle(a, m);
      MedianIsMiddle(b, n);
    }
  }

  /** The latest read of a location by event time, and of those the latest received. */
  ghost predicate LatestAt(window: Window, l: Location, observedAt: Time, receivedAt: Time) {
    && (exists o :: o in window && o.location == l && o.observedAt == observedAt && o.receivedAt == receivedAt)
    && forall o :: o in window && o.location == l ==>
         o.observedAt < observedAt || (o.observedAt == observedAt && o.receivedAt <= receivedAt)
  }

  lemma NewestIsLatest(window: Window, l: Location)
    requires Occurs(window, l)
    ensures LatestAt(window, l, NewestRead(ReadsAt(window, l)).observedAt, NewestRead(ReadsAt(window, l)).receivedAt)
  {
    var newest := NewestRead(ReadsAt(window, l));
    forall o | o in window && o.location == l
      ensures o.observedAt < newest.observedAt
              || (o.observedAt == newest.observedAt && o.receivedAt <= newest.receivedAt)
    {
      assert o in ReadsAt(window, l) && !NewerThan(o, newest);
    }
    assert newest in ReadsAt(window, l);
  }

  /**
   A zone is returned exactly when some location is decisive, and it is that location; the
   times are those of its latest read.
   */
  lemma DecisionIsDecisive(window: Window, settings: Settings)
    requires ValidSettings(settings)
    ensures
      var d := InferStableZone(window, settings);
      && (d.Some? ==> Decisive(window, d.value.location, settings)
                      && LatestAt(window, d.value.location, d.value.observedAt, d.value.receivedAt))
      && (forall w :: Decisive(window, w, settings) ==> d.Some? && d.value.location == w)
  {
    RankedTop(window);
    var ranked := Ranked(window);
    var d := InferStableZone(window, settings);
    if ranked != [] {
      var w := ranked[0].0;
      if d.Some? {
        NewestIsLatest(window, w);
        forall l | Occurs(window, l) && l != w
          ensures Count(window, l) < Count(window, w)
                  || (Count(window, l) == Count(window, w) && ClearlyWeaker(window, l, w))
        {
          assert Beats(window, w, l);
          assert Beats(window, ranked[1].0, l);
          WeakerByMedian(window, l, w);
        }
      }
      forall v | Decisive(window, v, settings)
        ensures d.Some? && d.value.location == v
      {
        OnlyDecisive(window, w, v, settings);
        if |ranked| > 1 {
          assert Occurs(window, ranked[1].0) && ranked[1].0 != w;
          WeakerByMedian(window, ranked[1].0, w);
        }
      }
    }
  }

  lemma OnlyDecisive(window: Window, w: Location, v: Location, settings: Settings)
    requires Best(window, w, {}) && Decisive(window, v, settings)
    ensures v == w
  {
    assert Beats(window, w, v);
    if v != w {
      WeakerByMedian(window, w, v);
    }
  }

  // ----- What confidence rewards -----

  /** More reads, a wider margin, a fresher and a healthier newest read never lower the confidence. */
  lemma ConfidenceRises(
    count: nat, more: nat, separation: real, wider: real, newest: Observation, better: Observation, settings: Settings)
    requires ValidSettings(settings) && count <= more && separation <= wider
    requires newest.receivedAt - newest.observedAt >= better.receivedAt - better.observedAt
    requires newest.readerHealth <= better.readerHealth
    ensures Confidence(count, Some(separation), newest, settings) <= Confidence(more, Some(wider), better, settings)
    ensures Confidence(count, Some(separation), newest, settings) <= Confidence(more, None, better, settings)
  {
    ShareRises(count, more, settings.confirmationReads);
    var a := MaxReal(0.0, (better.receivedAt - better.observedAt) as real);
    var b := MaxReal(0.0, (newest.receivedAt - newest.observedAt) as real);
    QuotientRises(a, b, settings.confirmationWindow as real);
  }

  lemma ShareRises(count: nat, more: nat, required: nat)
    requires count <= more && 1 <= required
    ensures count as real / required as real <= more as real / required as real
  {
    QuotientRises(count as real, more as real, required as real);
  }

  lemma QuotientRises(a: real, b: real, d: real)
    requires a <= b && 0.0 < d
    ensures a / d <= b / d
  {
    assert (b - a) / d >= 0.0;
    assert b / d == a / d + (b - a) / d;
  }

  /**
   Confidence is full exactly when there are enough reads, no rival within 12, no delay of the
   newest read and a healthy reader.
   */
  lemma FullConfidenceIff(count: nat, separation: Option<real>, newest: Observation, settings: Settings)
    requires ValidSettings(settings) && 0.0 <= newest.readerHealth <= 1.0
    ensures Confidence(count, separation, newest, settings) == 1.0 <==>
            && count >= settings.confirmationReads && (separation.Some? ==> separation.value >= 12.0)
            && newest.receivedAt <= newest.observedAt && newest.readerHealth == 1.0
  {
    var share := count as real / settings.confirmationReads as real;
    var age := MaxReal(0.0, (newest.receivedAt - newest.observedAt) as real);
    ShareIsOneIff(count, settings.confirmationReads);
    AgeIsZeroIff(age, settings.confirmationWindow as real);
  }

  lemma ShareIsOneIff(count: nat, required: nat)
    requires 1 <= required
    ensures count as real / required as real >= 1.0 <==> count >= required
    ensures 0.0 <= count as real / required as real
  {
    var share := count as real / required as real;
    assert share * required as real == count as real;
    if share >= 1.0 {
      assert share * required as real >= required as real;
    } else {
      assert share * required as real < required as real;
    }
  }

  lemma AgeIsZeroIff(age: real, window: real)
    requires 0.0 <= age && 0.0 < window
    ensures 1.0 - age / window == 1.0 <==> age == 0.0
    ensures 0.0 <= age / window
  {
    assert age / window * window == age;
  }

  /** Each of the four parts at work alone: 0.40 for reads, 0.25 for margin, 0.25 for freshness, 0.10 for health. */
  lemma ConfidenceShares(count: nat, separation: real, newest: Observation, settings: Settings)
    requires ValidSettings(settings) && newest.readerHealth == 0.0
    requires newest.receivedAt - newest.observedAt >= settings.confirmationWindow
    ensures
      var whole := newest.(receivedAt := newest.observedAt);
      && Confidence(settings.confirmationReads, Some(0.0), newest, settings) == 0.40
      && Confidence(0, Some(12.0), newest, settings) == Confidence(0, None, newest, settings) == 0.25
      && Confidence(0, Some(6.0), newest, settings) == 0.125
      && Confidence(0, Some(0.0), whole, settings) == 0.25
      && Confidence(0, Some(0.0), newest.(readerHealth := 1.0), settings) == 0.10
  {
    assert 1.0 <= (newest.receivedAt - newest.observedAt) as real / settings.confirmationWindow as real by {
      QuotientRises(settings.confirmationWindow as real, (newest.receivedAt - newest.observedAt) as real,
                    settings.confirmationWindow as real);
    }
  }

  /** A returned decision is never a weak one. */
  lemma DecidedConfidence(window: Window, settings: Settings)
    requires ValidSettings(settings)
    requires forall o :: o in window ==> 0.0 <= o.readerHealth <= 1.0
    ensures
      var d := InferStableZone(window, settings);
      d.Some? ==> MINIMUM_DECIDED_CONFIDENCE <= d.value.confidence <= 1.0
  {
    RankedTop(window);
    var ranked := Ranked(window);
    if InferStableZone(window, settings).Some? {
      var (location, winning) := ranked[0];
      var newest := NewestRead(winning);
      assert newest in window;
      ShareAtLeastOne(|winning|, settings.confirmationReads);
    }
  }

  lemma ShareAtLeastOne(count: nat, required: nat)
    requires 1 <= required <= count
    ensures count as real / required as real >= 1.0
  {
  }

  // ----- Order of the observations does not matter -----

  lemma {:induction false} ReadsAtPermutes(window: Window, l: Location, o: Observation)
    ensures multiset(ReadsAt(window, l))[o] == if o.location == l then multiset(window)[o] else 0
  {
    if window != [] {
      var front := window[..|window| - 1];
      var last := window[|window| - 1];
      assert window == front + [last];
      ReadsAtPermutes(front, l, o);
    }
  }

  lemma StrengthsTake(group: Window, i: nat)
    requires i < |group|
    ensures multiset(Strengths(group)) == multiset(Strengths(group[..i] + group[i + 1..])) + multiset{group[i].rssi}
  {
    var before, after := Strengths(group[..i]), Strengths(group[i + 1..]);
    assert Strengths(group) == before + [group[i].rssi] + after;
    assert Strengths(group[..i] + group[i + 1..]) == before + after;
  }

  lemma {:induction false} StrengthsPermute(group: Window, other: Window)
    requires multiset(group) == multiset(other)
    ensures multiset(Strengths(group)) == multiset(Strengths(other))
  {
    assert |multiset(group)| == |group| && |multiset(other)| == |other|;
    if group != [] {
      assert group[0] in multiset(other);
      var i :| 0 <= i < |other| && other[i] == group[0];
      var rest := other[..i] + other[i + 1..];
      StrengthsTake(other, i);
      StrengthsTake(group, 0);
      assert group[..0] + group[1..] == group[1..];
      RestPermutes(group, other, i);
      StrengthsPermute(group[1..], rest);
    }
  }

  lemma RestPermutes(group: Window, other: Window, i: nat)
    requires multiset(group) == multiset(other)
    requires group != [] && i < |other| && other[i] == group[0]
    ensures multiset(group[1..]) == multiset(other[..i] + other[i + 1..])
  {
    assert group == [group[0]] + group[1..];
    assert other == other[..i] + [other[i]] + other[i + 1..];
    assert multiset(group) == multiset{group[0]} + multiset(group[1..]);
    assert multiset(other) == multiset(other[..i]) + multiset{other[i]} + multiset(other[i + 1..]);
    assert multiset(group[1..]) == multiset(group) - multiset{group[0]};
  }

  lemma SameMedian(group: Window, other: Window)
    requires multiset(group) == multiset(other) && group != [] && other != []
    ensures MedianRssi(group) == MedianRssi(other)
  {
    StrengthsPermute(group, other);
    SortedAlike(Strengths(group), Strengths(other), AscendingReal);
  }

  lemma SameReadsSameKey(window: Window, other: Window, l: Location)
    requires multiset(window) == multiset(other)
    ensures multiset(ReadsAt(window, l)) == multiset(ReadsAt(other, l))
    ensures Count(window, l) == Count(other, l) && Median(window, l) == Median(other, l)
  {
    var a := ReadsAt(window, l);
    var b := ReadsAt(other, l);
    forall o
      ensures multiset(a)[o] == multiset(b)[o]
    {
      ReadsAtPermutes(window, l, o);
      ReadsAtPermutes(other, l, o);
    }
    assert multiset(a) == multiset(b);
    assert |a| == |multiset(a)| && |b| == |multiset(b)|;
    if a != [] {
      SameMedian(a, b);
    }
  }

  lemma SameNewest(group: Window, other: Window)
    requires multiset(group) == multiset(other) && group != [] && other != []
    requires IdentifiedById(group)
    ensures NewestRead(group) == NewestRead(other)
  {
    var o, p := NewestRead(group), NewestRead(other);
    assert p in multiset(group) && o in multiset(other);
    assert p in group && o in other;
    assert !NewerThan(p, o) && !NewerThan(o, p);
  }

  /** Two windows that look the same at every location. */
  ghost predicate LookAlike(window: Window, other: Window) {
    forall l :: Occurs(window, l) == Occurs(other, l) && KeyAt(window, l) == KeyAt(other, l)
  }

  lemma BestTransfers(window: Window, other: Window, w: Location, except: set<Location>)
    requires LookAlike(window, other) && Best(window, w, except)
    ensures Best(other, w, except)
  {
    forall l | Occurs(other, l) && l !in except
      ensures Beats(other, w, l)
    {
      assert Beats(window, w, l);
      assert KeyAt(window, w) == KeyAt(other, w);
    }
  }

  lemma SameTop(window: Window, other: Window)
    requires LookAlike(window, other) && OneStorePerZone(other)
    ensures |Ranked(window)| > 0 <==> |Ranked(other)| > 0
    ensures |Ranked(window)| > 1 <==> |Ranked(other)| > 1
    ensures |Ranked(window)| > 0 ==> Ranked(window)[0].0 == Ranked(other)[0].0
    ensures |Ranked(window)| > 1 ==> Ranked(window)[1].0 == Ranked(other)[1].0
  {
    RankedTop(window);
    RankedTop(other);
    var r, r' := Ranked(window), Ranked(other);
    if |r| > 0 && |r'| > 0 {
      var w := r[0].0;
      BestTransfers(window, other, w, {});
      BestIsUnique(other, w, r'[0].0, {});
      if |r| > 1 && |r'| > 1 {
        BestTransfers(window, other, r[1].0, {w});
        BestIsUnique(other, r[1].0, r'[1].0, {w});
      }
    }
  }

  lemma SameReads(window: Window, other: Window, l: Location)
    requires multiset(window) == multiset(other)
    requires IdentifiedById(window)
    ensures multiset(ReadsAt(window, l)) == multiset(ReadsAt(other, l))
    ensures IdentifiedById(ReadsAt(window, l))
  {
    SameReadsSameKey(window, other, l);
  }

  lemma SameJudgement(
    l: Location, winning: Window, winning': Window, competing: Window, competing': Window, settings: Settings)
    requires ValidSettings(settings)
    requires multiset(winning) == multiset(winning') && multiset(competing) == multiset(competing')
    requires IdentifiedById(winning)
    ensures Judge(l, winning, competing, settings) == Judge(l, winning', competing', settings)
  {
    assert |multiset(winning)| == |winning| && |multiset(winning')| == |winning'|;
    assert |multiset(competing)| == |competing| && |multiset(competing')| == |competing'|;
    if winning != [] {
      SameMedian(winning, winning');
      SameNewest(winning, winning');
    }
    if competing != [] {
      SameMedian(competing, competing');
    }
  }

  /** The whole decision, confidence included, ignores the order of the reads. */
  lemma DecisionIgnoresOrder(window: Window, other: Window, settings: Settings)
    requires ValidSettings(settings)
    requires multiset(window) == multiset(other)
    requires OneStorePerZone(window) && IdentifiedById(window)
    ensures InferStableZone(window, settings) == InferStableZone(other, settings)
  {
    LookAlikeByOrder(window, other);
    SameTop(window, other);
    var ranked, ranked' := Ranked(window), Ranked(other);
    RankedTop(window);
    RankedTop(other);
    if ranked != [] {
      SameReads(window, other, ranked[0].0);
      if |ranked| > 1 {
        SameReads(window, other, ranked[1].0);
        SameJudgement(ranked[0].0, ranked[0].1, ranked'[0].1, ranked[1].1, ranked'[1].1, settings);
      } else {
        SameJudgement(ranked[0].0, ranked[0].1, ranked'[0].1, [], [], settings);
      }
    }
  }

  lemma LookAlikeByOrder(window: Window, other: Window)
    requires multiset(window) == multiset(other) && OneStorePerZone(window)
    ensures LookAlike(window, other) && OneStorePerZone(other)
  {
    forall l
      ensures Occurs(window, l) == Occurs(other, l) && KeyAt(window, l) == KeyAt(other, l)
    {
      SameReadsSameKey(window, other, l);
      assert Count(window, l) == Count(other, l);
    }
    assert forall o :: o in other ==> o in multiset(window);
  }
}
