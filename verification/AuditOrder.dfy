/** The order of the tuples: when the verdict depends on it, and when it does not. */
module AuditOrder {
  import opened Results
  import opened Selections
  import opened Reorderings
  import opened AuditVulns
  import opened AuditGate

  /** The same tuples, in any order and repeated any number of times. */
  ghost predicate SameTuples(a: seq<Vuln>, b: seq<Vuln>) {
    forall v :: v in a <==> v in b
  }

  lemma CountedIsOrderFree(py: Python, a: seq<Vuln>, b: seq<Vuln>, k: Key)
    requires SameTuples(a, b) && Counted(py, a, k)
    ensures Counted(py, b, k)
  {
    hide CountsAs;
    var i :| 0 <= i < |a| && CountsAs(py, a[i], k);
    assert a[i] in b;
    var j :| 0 <= j < |b| && b[j] == a[i];
  }

  /** The missing and the expired keys a scan reports do not depend on order or repetition. */
  lemma ReportsAreOrderFree(py: Python, index: map<Key, Entry>, a: seq<Vuln>, b: seq<Vuln>, today: int,
                            ra: Report, rb: Report)
    requires SameTuples(a, b)
    requires Exact(py, index, a, today, ra) && Exact(py, index, b, today, rb)
    ensures forall k :: k in ra.missing <==> k in rb.missing
    ensures forall k :: k in ra.expired <==> k in rb.expired
    ensures forall v :: v in ra.unidentified <==> v in rb.unidentified
    ensures multiset(ra.missing) == multiset(rb.missing) && multiset(ra.expired) == multiset(rb.expired)
  {
    hide Counted, Unidentified, FirstSev;
    forall k
      ensures Counted(py, a, k) <==> Counted(py, b, k)
    {
      if Counted(py, a, k) {
        CountedIsOrderFree(py, a, b, k);
      }
      if Counted(py, b, k) {
        CountedIsOrderFree(py, b, a, k);
      }
    }
    hide Exact;
    assert (forall k :: k in ra.missing <==> k in rb.missing) && NoDup(ra.missing) && NoDup(rb.missing)
      && (forall k :: k in ra.expired <==> k in rb.expired) && NoDup(ra.expired) && NoDup(rb.expired) by {
      ExactParts(py, index, a, today, ra);
      ExactParts(py, index, b, today, rb);
    }
    SameBag(ra.missing, rb.missing);
    SameBag(ra.expired, rb.expired);
    assert forall v :: v in ra.unidentified <==> v in rb.unidentified by {
      ExactUnident(py, index, a, today, ra);
      ExactUnident(py, index, b, today, rb);
    }
  }

  lemma ExactParts(py: Python, index: map<Key, Entry>, vulns: seq<Vuln>, today: int, r: Report)
    requires Exact(py, index, vulns, today, r)
    ensures forall k :: k in r.missing <==> Counted(py, vulns, k) && k !in index
    ensures forall k :: k in r.expired <==> Counted(py, vulns, k) && k in index && index[k].expiresOn < today
    ensures NoDup(r.missing) && NoDup(r.expired)
  {
    hide Counted, Unidentified, FirstSev;
  }

  lemma ExactUnident(py: Python, index: map<Key, Entry>, vulns: seq<Vuln>, today: int, r: Report)
    requires Exact(py, index, vulns, today, r)
    ensures forall v :: v in r.unidentified <==> v in vulns && Unidentified(py, v)
  {
    hide Counted, Unidentified, FirstSev;
  }

  lemma {:induction false} NoDupBag<T>(s: seq<T>)
    requires NoDup(s)
    ensures forall x :: multiset(s)[x] == if x in s then 1 else 0
  {
    if s != [] {
      var front, last := s[..|s| - 1], s[|s| - 1];
      assert s == front + [last];
      NoDupBag(front);
    }
  }

  lemma SameBag<T>(a: seq<T>, b: seq<T>)
    requires NoDup(a) && NoDup(b) && forall x :: x in a <==> x in b
    ensures multiset(a) == multiset(b)
  {
    NoDupBag(a);
    NoDupBag(b);
  }

  /** Tuples of one key all have one severity. */
  ghost predicate SeveritiesAgree(py: Python, vulns: seq<Vuln>) {
    forall v, w, k :: v in vulns && w in vulns && CountsAs(py, v, k) && CountsAs(py, w, k) ==> Sev(py, v) == Sev(py, w)
  }

  lemma FirstSevAgrees(py: Python, a: seq<Vuln>, b: seq<Vuln>, k: Key)
    requires SameTuples(a, b) && SeveritiesAgree(py, a) && Counted(py, a, k)
    ensures Counted(py, b, k) && FirstSev(py, a, k) == FirstSev(py, b, k)
  {
    hide VulnKey, NormalizeSeverity;
    CountedIsOrderFree(py, a, b, k);
    var i :| 0 <= i < |a| && CountsAs(py, a[i], k) && Sev(py, a[i]) == FirstSev(py, a, k).value;
    var j :| 0 <= j < |b| && CountsAs(py, b[j], k) && Sev(py, b[j]) == FirstSev(py, b, k).value;
    assert b[j] in a && a[i] in a;
  }

  /** When severities agree key by key, reordering or repeating the tuples never changes the verdict. */
  lemma VerdictIsOrderFree(py: Python, records: seq<Record>, a: seq<Vuln>, b: seq<Vuln>, today: int)
    requires SameTuples(a, b) && SeveritiesAgree(py, a) && Accepts(py, records, a, today)
    ensures Accepts(py, records, b, today)
  {
    hide Keyed, EntryOf, Counted, Unidentified, FirstSev, CountsAs;
    forall i | 0 <= i < |b|
      ensures !Unidentified(py, b[i])
    {
      assert b[i] in a;
      var j :| 0 <= j < |a| && a[j] == b[i];
    }
    forall k | Counted(py, b, k)
      ensures CoveredBy(py, records, b, today, k)
    {
      CountedIsOrderFree(py, b, a, k);
      FirstSevAgrees(py, a, b, k);
      assert CoveredBy(py, records, a, today, k);
    }
  }

  // ---------- Exactly when order matters ----------

  /** The tuple needs an exception, and has one for its own severity. */
  predicate Excused(py: Python, records: seq<Record>, today: int, v: Vuln) {
    && Counts(py, v)
    && exists i :: 0 <= i < |records| && Covers(py, records[i], VulnKey(py, v), Sev(py, v), today)
  }

  /** What is asked whatever the order: sound records, and an identifier for every relevant tuple. */
  ghost predicate Sound(py: Python, records: seq<Record>, vulns: seq<Vuln>) {
    && AllWellFormed(py, records) && DistinctKeys(py, records)
    && forall v :: v in vulns ==> !Unidentified(py, v)
  }

  /** Every tuple that needs an exception has one for its own severity. */
  ghost predicate AllExcused(py: Python, records: seq<Record>, vulns: seq<Vuln>, today: int) {
    Sound(py, records, vulns) && forall v :: v in vulns && Counts(py, v) ==> Excused(py, records, today, v)
  }

  /** Under every key some tuple has an exception for its own severity. */
  ghost predicate KeysExcused(py: Python, records: seq<Record>, vulns: seq<Vuln>, today: int) {
    && Sound(py, records, vulns)
    && forall v :: v in vulns && Counts(py, v) ==>
         exists w :: w in vulns && VulnKey(py, w) == VulnKey(py, v) && Excused(py, records, today, w)
  }

  lemma {:induction false} FirstSevJoin(py: Python, x: seq<Vuln>, y: seq<Vuln>, k: Key)
    ensures FirstSev(py, x + y, k) == if FirstSev(py, x, k).Some? then FirstSev(py, x, k) else FirstSev(py, y, k)
  {
    hide CountsAs, SeverityReadable, NormalizeSeverity;
    if y == [] {
      assert x + y == x;
    } else {
      var n := |y| - 1;
      assert (x + y)[..|x + y| - 1] == x + y[..n] && (x + y)[|x + y| - 1] == y[n];
      FirstSevJoin(py, x, y[..n], k);
    }
  }

  /** In front, a tuple decides for its key. */
  lemma {:induction false} FrontDecides(py: Python, v: Vuln, rest: seq<Vuln>)
    requires Counts(py, v)
    ensures FirstSev(py, [v] + rest, VulnKey(py, v)) == Some(Sev(py, v))
  {
    hide VulnKey, NormalizeSeverity;
    FirstSevJoin(py, [v], rest, VulnKey(py, v));
    assert [v][..0] == [];
  }

  lemma {:induction false} SoundIsOrderFree(py: Python, records: seq<Record>, a: seq<Vuln>, b: seq<Vuln>)
    requires SameTuples(a, b) && Sound(py, records, a)
    ensures Sound(py, records, b)
  {
    hide Unidentified, AllWellFormed, DistinctKeys;
  }

  /** Acceptance implies that every key has an excused tuple: its first. */
  lemma {:induction false} AcceptedKeysExcused(py: Python, records: seq<Record>, a: seq<Vuln>, today: int)
    requires Accepts(py, records, a, today)
    ensures KeysExcused(py, records, a, today)
  {
    hide Unidentified, AllWellFormed, DistinctKeys, VulnKey, Covers, FirstSev, NormalizeSeverity;
    forall v | v in a && Counts(py, v)
      ensures exists w :: w in a && VulnKey(py, w) == VulnKey(py, v) && Excused(py, records, today, w)
    {
      var k := VulnKey(py, v);
      assert CountsAs(py, v, k);
      assert CoveredBy(py, records, a, today, k);
      var i :| 0 <= i < |a| && CountsAs(py, a[i], k) && Sev(py, a[i]) == FirstSev(py, a, k).value;
      assert a[i] in a && Excused(py, records, today, a[i]);
    }
  }

  /** If the first tuple of each key is excused, the list is accepted. */
  lemma {:induction false} FirstExcused(py: Python, records: seq<Record>, b: seq<Vuln>, today: int, k: Key, w: Vuln)
    requires Counted(py, b, k) && Excused(py, records, today, w) && VulnKey(py, w) == k
    requires FirstSev(py, b, k) == Some(Sev(py, w))
    ensures CoveredBy(py, records, b, today, k)
  {
    hide Covers, FirstSev, VulnKey, NormalizeSeverity;
  }

  lemma {:induction false} AllExcusedAccepts(py: Python, records: seq<Record>, a: seq<Vuln>, b: seq<Vuln>, today: int)
    requires SameTuples(a, b) && AllExcused(py, records, a, today)
    ensures Accepts(py, records, b, today)
  {
    hide Unidentified, AllWellFormed, DistinctKeys, VulnKey, Excused, FirstSev, NormalizeSeverity, CoveredBy;
    forall k | Counted(py, b, k)
      ensures CoveredBy(py, records, b, today, k)
    {
      var i :| 0 <= i < |b| && CountsAs(py, b[i], k) && Sev(py, b[i]) == FirstSev(py, b, k).value;
      assert b[i] in a;
      FirstExcused(py, records, b, today, k, b[i]);
    }
  }

  /** A list is accepted in every order exactly when every tuple is excused. */
  lemma {:induction false} EveryOrderExactly(py: Python, records: seq<Record>, a: seq<Vuln>, today: int)
    ensures (forall b :: Reordered(a, b) ==> Accepts(py, records, b, today)) <==> AllExcused(py, records, a, today)
    ensures (forall b :: SameTuples(a, b) ==> Accepts(py, records, b, today)) <==> AllExcused(py, records, a, today)
  {
    hide Accepts, Counts, Excused, AllExcused, Reordered;
    forall b | Reordered(a, b)
      ensures SameTuples(a, b)
    {
      ReorderedMembers(a, b);
    }
    if AllExcused(py, records, a, today) {
      forall b | SameTuples(a, b)
        ensures Accepts(py, records, b, today)
      {
        AllExcusedAccepts(py, records, a, b, today);
      }
    }
    if forall b :: Reordered(a, b) ==> Accepts(py, records, b, today) {
      EveryOrderNeeds(py, records, a, today);
    }
  }

  lemma {:induction false} EveryOrderNeeds(py: Python, records: seq<Record>, a: seq<Vuln>, today: int)
    requires forall b :: Reordered(a, b) ==> Accepts(py, records, b, today)
    ensures AllExcused(py, records, a, today)
  {
    hide Accepts, Counts, Excused, Sound, Covers;
    assert Sound(py, records, a) by {
      assert Reordered(a, a);
      AcceptedKeysExcused(py, records, a, today);
    }
    forall v | v in a && Counts(py, v)
      ensures Excused(py, records, today, v)
    {
      var i :| 0 <= i < |a| && a[i] == v;
      ToFrontReorders(a, i);
      FrontAccepted(py, records, v, a[..i] + a[i + 1..], today);
    }
  }

  lemma {:induction false} FrontAccepted(py: Python, records: seq<Record>, v: Vuln, rest: seq<Vuln>, today: int)
    requires Counts(py, v) && Accepts(py, records, [v] + rest, today)
    ensures Excused(py, records, today, v)
  {
    hide Unidentified, AllWellFormed, DistinctKeys, VulnKey, Covers, FirstSev, NormalizeSeverity;
    FrontDecides(py, v, rest);
    assert CoveredBy(py, records, [v] + rest, today, VulnKey(py, v));
  }

  /** A list is accepted in some order exactly when every key has an excused tuple to go first. */
  lemma {:induction false} SomeOrderExactly(py: Python, records: seq<Record>, a: seq<Vuln>, today: int)
    ensures (exists b :: Reordered(a, b) && Accepts(py, records, b, today)) <==> KeysExcused(py, records, a, today)
    ensures (exists b :: SameTuples(a, b) && Accepts(py, records, b, today)) <==> KeysExcused(py, records, a, today)
  {
    hide Accepts, Counts, Excused, KeysExcused, Reordered, VulnKey;
    forall b | Reordered(a, b)
      ensures SameTuples(a, b)
    {
      ReorderedMembers(a, b);
    }
    if b :| SameTuples(a, b) && Accepts(py, records, b, today) {
      AcceptedKeysExcused(py, records, b, today);
      KeysExcusedIsOrderFree(py, records, b, a, today);
    }
    if KeysExcused(py, records, a, today) {
      var b := ExcusedFirst(py, records, a, today);
      assert Reordered(a, b);
    }
  }

  lemma {:induction false} KeysExcusedIsOrderFree(py: Python, records: seq<Record>, a: seq<Vuln>, b: seq<Vuln>,
                                                  today: int)
    requires SameTuples(a, b) && KeysExcused(py, records, a, today)
    ensures KeysExcused(py, records, b, today)
  {
    hide Counts, Excused, VulnKey, Sound;
    SoundIsOrderFree(py, records, a, b);
  }

  /** Putting the excused tuples first. */
  lemma {:induction false} ExcusedFirst(py: Python, records: seq<Record>, a: seq<Vuln>, today: int)
    returns (b: seq<Vuln>)
    requires KeysExcused(py, records, a, today)
    ensures Reordered(a, b) && Accepts(py, records, b, today)
  {
    hide Sound, Unidentified, AllWellFormed, DistinctKeys, VulnKey, FirstSev, NormalizeSeverity, CoveredBy;
    hide Reordered, Excused, Keep;
    var good := v => Excused(py, records, today, v);
    var bad := v => !Excused(py, records, today, v);
    var front, back := Keep(a, good), Keep(a, bad);
    b := front + back;
    KeepSplits(a, good, bad);
    ReorderedMembers(a, b);
    KeepMembers(a, good);
    assert Sound(py, records, b) by {
      SoundIsOrderFree(py, records, a, b);
    }
    forall k | Counted(py, b, k)
      ensures CoveredBy(py, records, b, today, k)
    {
      var i :| 0 <= i < |b| && CountsAs(py, b[i], k);
      assert b[i] in a;
      var w :| w in a && VulnKey(py, w) == k && Excused(py, records, today, w);
      assert w in front by {
        var j :| 0 <= j < |a| && a[j] == w;
      }
      FirstOfFront(py, records, front, back, today, k, w);
    }
    SoundAccepts(py, records, b, today);
  }

  lemma {:induction false} SoundAccepts(py: Python, records: seq<Record>, b: seq<Vuln>, today: int)
    requires Sound(py, records, b)
    requires forall k :: Counted(py, b, k) ==> CoveredBy(py, records, b, today, k)
    ensures Accepts(py, records, b, today)
  {
    hide Unidentified, AllWellFormed, DistinctKeys, CoveredBy, Counted;
  }

  lemma {:induction false} FirstOfFront(py: Python, records: seq<Record>, front: seq<Vuln>, back: seq<Vuln>,
                                        today: int, k: Key, w: Vuln)
    requires forall i :: 0 <= i < |front| ==> Excused(py, records, today, front[i])
    requires w in front && VulnKey(py, w) == k
    requires Counted(py, front + back, k)
    ensures CoveredBy(py, records, front + back, today, k)
  {
    hide VulnKey, FirstSev, NormalizeSeverity, CoveredBy, Covers;
    var j :| 0 <= j < |front| && front[j] == w;
    assert CountsAs(py, front[j], k);
    FirstSevJoin(py, front, back, k);
    var i :| 0 <= i < |front| && CountsAs(py, front[i], k) && Sev(py, front[i]) == FirstSev(py, front, k).value;
    FirstExcused(py, records, front + back, today, k, front[i]);
  }

  /** The verdict on a list is the same in all orders exactly when one excused tuple under each key
      means that all tuples are excused. */
  lemma {:induction false} OrderFreeExactly(py: Python, records: seq<Record>, a: seq<Vuln>, today: int)
    ensures (forall b, c :: Reordered(a, b) && Reordered(a, c) ==>
               (Accepts(py, records, b, today) <==> Accepts(py, records, c, today))) <==>
            (KeysExcused(py, records, a, today) ==> AllExcused(py, records, a, today))
  {
    hide Accepts, AllExcused, KeysExcused, Reordered;
    EveryOrderExactly(py, records, a, today);
    SomeOrderExactly(py, records, a, today);
  }

  // ---------- Tuples read after others ----------

  /** What tuples read after `a` must meet: only keys that `a` does not have are looked up. */
  ghost predicate RestCovered(py: Python, records: seq<Record>, a: seq<Vuln>, rest: seq<Vuln>, today: int) {
    && (forall v :: v in rest ==> !Unidentified(py, v))
    && forall k :: Counted(py, rest, k) && !Counted(py, a, k) ==> CoveredBy(py, records, rest, today, k)
  }

  lemma {:induction false} CoveredJoin(py: Python, records: seq<Record>, a: seq<Vuln>, rest: seq<Vuln>, today: int,
                                       k: Key)
    ensures Counted(py, a + rest, k) <==> Counted(py, a, k) || Counted(py, rest, k)
    ensures Counted(py, a, k) ==>
              (CoveredBy(py, records, a + rest, today, k) <==> CoveredBy(py, records, a, today, k))
    ensures Counted(py, rest, k) && !Counted(py, a, k) ==>
              (CoveredBy(py, records, a + rest, today, k) <==> CoveredBy(py, records, rest, today, k))
  {
    hide Counted, Covers;
    FirstSevJoin(py, a, rest, k);
  }

  lemma {:induction false} AcceptsJoin(py: Python, records: seq<Record>, a: seq<Vuln>, rest: seq<Vuln>, today: int)
    ensures Accepts(py, records, a + rest, today) <==>
            Accepts(py, records, a, today) && RestCovered(py, records, a, rest, today)
  {
    hide Counted, CoveredBy, FirstSev, Unidentified, AllWellFormed, DistinctKeys;
    forall k
      ensures Counted(py, a + rest, k) <==> Counted(py, a, k) || Counted(py, rest, k)
      ensures Counted(py, a, k) ==>
                (CoveredBy(py, records, a + rest, today, k) <==> CoveredBy(py, records, a, today, k))
      ensures Counted(py, rest, k) && !Counted(py, a, k) ==>
                (CoveredBy(py, records, a + rest, today, k) <==> CoveredBy(py, records, rest, today, k))
    {
      CoveredJoin(py, records, a, rest, today, k);
    }
    assert forall v :: v in a + rest <==> v in a || v in rest;
    assert (forall i :: 0 <= i < |a + rest| ==> !Unidentified(py, (a + rest)[i])) <==>
           forall v :: v in a + rest ==> !Unidentified(py, v);
  }

  lemma {:induction false} RestAfterAnyOrder(py: Python, records: seq<Record>, a: seq<Vuln>, b: seq<Vuln>,
                                             rest: seq<Vuln>, today: int)
    requires SameTuples(a, b)
    ensures RestCovered(py, records, a, rest, today) <==> RestCovered(py, records, b, rest, today)
  {
    hide Counted, CoveredBy, Unidentified;
    forall k
      ensures Counted(py, a, k) <==> Counted(py, b, k)
    {
      if Counted(py, a, k) {
        CountedIsOrderFree(py, a, b, k);
      }
      if Counted(py, b, k) {
        CountedIsOrderFree(py, b, a, k);
      }
    }
  }

  /** The same when severities agree, for the tuples read last. */
  lemma {:induction false} RestInAnyOrder(py: Python, records: seq<Record>, a: seq<Vuln>, rest: seq<Vuln>,
                                          other: seq<Vuln>, today: int)
    requires SameTuples(rest, other) && SeveritiesAgree(py, rest) && RestCovered(py, records, a, rest, today)
    ensures RestCovered(py, records, a, other, today)
  {
    hide CountsAs, Counted, CoveredBy, Unidentified, SeveritiesAgree;
    forall k | Counted(py, other, k) && !Counted(py, a, k)
      ensures CoveredBy(py, records, other, today, k)
    {
      CountedIsOrderFree(py, other, rest, k);
      FirstSevAgrees(py, rest, other, k);
      SameFirstCovered(py, records, rest, other, today, k);
    }
  }

  lemma {:induction false} SameFirstCovered(py: Python, records: seq<Record>, a: seq<Vuln>, b: seq<Vuln>, today: int,
                                            k: Key)
    requires Counted(py, a, k) && Counted(py, b, k) && FirstSev(py, a, k) == FirstSev(py, b, k)
    ensures CoveredBy(py, records, a, today, k) <==> CoveredBy(py, records, b, today, k)
  {
    hide Counted, FirstSev, Covers;
  }

  // ---------- Order matters ----------

  /** Two tuples of one key with different severities, one of them the exception's: only the first is
      compared with it. */
  lemma OrderMattersWhenSeveritiesDiffer(py: Python, exc: Record, v: Vuln, w: Vuln, k: Key, today: int)
    requires Keyed(py, exc) == Some(k) && EntryOf(py, exc).expiresOn >= today
    requires CountsAs(py, v, k) && CountsAs(py, w, k)
    requires Sev(py, v) == EntryOf(py, exc).severity != "" && Sev(py, w) != Sev(py, v)
    ensures Accepts(py, [exc], [v, w], today) && !Accepts(py, [exc], [w, v], today)
  {
    hide Keyed, EntryOf, CountsAs, Unidentified, NormalizeSeverity, FirstSev, Counted;
    CountsOnlyAs(py, v, k);
    CountsOnlyAs(py, w, k);
    FirstOfTwo(py, v, w, k);
    FirstOfTwo(py, w, v, k);
    assert Covers(py, [exc][0], k, Sev(py, v), today);
    assert CoveredBy(py, [exc], [v, w], today, k);
    assert !CoveredBy(py, [exc], [w, v], today, k);
  }

  lemma CountsOnlyAs(py: Python, v: Vuln, k: Key)
    requires CountsAs(py, v, k)
    ensures !Unidentified(py, v) && SeverityReadable(py, v)
    ensures forall j :: CountsAs(py, v, j) ==> j == k
  {
  }

  lemma FirstOfTwo(py: Python, v: Vuln, w: Vuln, k: Key)
    requires CountsAs(py, v, k)
    ensures Counted(py, [v, w], k) && FirstSev(py, [v, w], k) == Some(Sev(py, v))
    ensures forall j :: Counted(py, [v, w], j) ==> CountsAs(py, v, j) || CountsAs(py, w, j)
  {
    hide VulnKey, NormalizeSeverity;
    var both := [v, w];
    assert both[..1] == [v] && both[..1][..0] == [];
    assert FirstSev(py, [v], k) == Some(Sev(py, v)) by {
      assert [v][..0] == [];
    }
    assert CountsAs(py, both[0], k);
  }
}
