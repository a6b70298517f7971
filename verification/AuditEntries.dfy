/** The entries of an audit's "vulnerabilities": each gives a block of tuples, and the order of the blocks
    decides which tuple of a key comes first. */
module AuditEntries {
  import opened Results
  import opened Reorderings
  import opened BlockOrders
  import opened AuditText
  import opened AuditVulns
  import opened AuditReading
  import opened AuditGate
  import opened AuditOrder

  ghost predicate AllEntriesRead(ms: seq<Member>) {
    forall m :: m in ms ==> EntryReads(m.value)
  }

  /** The tuples of one entry. */
  function Block(m: Member): seq<Vuln> {
    if VulnerabilityTuples(m).Success? then VulnerabilityTuples(m).value else []
  }

  function Blocks(): Member -> seq<Vuln> {
    (m: Member) => Block(m)
  }

  /** All tuples of the section. */
  function EntryList(ms: seq<Member>): seq<Vuln> {
    Flatten(Blocks(), ms)
  }

  lemma {:induction false} EntriesFlatten(ms: seq<Member>)
    ensures AllVulnerabilityTuples(ms).Success? <==> AllEntriesRead(ms)
    ensures AllVulnerabilityTuples(ms).Success? ==> AllVulnerabilityTuples(ms).value == EntryList(ms)
  {
    hide VulnerabilityTuples, EntryReads;
    if ms != [] {
      var first, rest := ms[0], ms[1..];
      EntryReadable(first);
      EntriesFlatten(rest);
      assert forall m :: m in ms <==> m == first || m in rest;
      assert ms == [first] + rest;
      FlattenJoin(Blocks(), [first], rest);
      FlattenNext(Blocks(), [], first);
      assert [] + [first] == [first] && [] + Block(first) == Block(first);
    }
  }

  /** All tuples of an entry carry its name and its severity. */
  lemma {:induction false} BlockMembers(m: Member, v: Vuln)
    requires v in Block(m)
    ensures m.value.Obj? && v.name == Str(m.key) && v.severity == Get(m.value.members, "severity")
  {
    hide Get, Via, JoinTitles, TruthyOnly;
    var es := Via(Get(m.value.members, "via"));
    LabelAt(Str(m.key), Get(m.value.members, "severity"), Str(JoinTitles(TruthyOnly(Titles(es))).value),
            TruthyOnly(Ids(es)));
  }

  // ---------- Which tuples need an exception of their own ----------

  /** The key of a tuple that must be looked up, unless `a`, read before, has the key. */
  function OpenKey(py: Python, a: seq<Vuln>): Vuln -> Option<Key> {
    (v: Vuln) => if Counts(py, v) && !Counted(py, a, VulnKey(py, v)) then Some(VulnKey(py, v)) else None
  }

  function Excuses(py: Python, records: seq<Record>, today: int): Vuln -> bool {
    (v: Vuln) => Excused(py, records, today, v)
  }

  lemma {:induction false} BlocksAreUniform(py: Python, records: seq<Record>, a: seq<Vuln>, today: int)
    ensures Uniform(OpenKey(py, a), Excuses(py, records, today), Blocks())
  {
    hide Block, VulnKey, NormalizeSeverity, Covers, Counted;
    forall m, v, w | v in Blocks()(m) && w in Blocks()(m) && OpenKey(py, a)(v).Some? &&
                     OpenKey(py, a)(v) == OpenKey(py, a)(w)
      ensures Excuses(py, records, today)(v) == Excuses(py, records, today)(w)
    {
      BlockMembers(m, v);
      BlockMembers(m, w);
    }
  }

  lemma {:induction false} FirstCounted(py: Python, s: seq<Vuln>, k: Key) returns (i: nat)
    requires Counted(py, s, k)
    ensures i < |s| && CountsAs(py, s[i], k) && !Counted(py, s[..i], k)
    ensures FirstSev(py, s, k) == Some(Sev(py, s[i]))
  {
    hide CountsAs, FirstSev;
    i := 0;
    while !CountsAs(py, s[i], k)
      invariant i < |s| && forall j :: 0 <= j < i ==> !CountsAs(py, s[j], k)
      decreases |s| - i
    {
      i := i + 1;
    }
    FirstSevAt(py, s, i, k);
  }

  lemma {:induction false} FirstSevAt(py: Python, s: seq<Vuln>, i: nat, k: Key)
    requires i < |s| && CountsAs(py, s[i], k) && !Counted(py, s[..i], k)
    ensures FirstSev(py, s, k) == Some(Sev(py, s[i]))
  {
    hide VulnKey, FirstSev, Counted, NormalizeSeverity;
    assert s == s[..i] + ([s[i]] + s[i + 1..]);
    FirstSevJoin(py, s[..i], [s[i]] + s[i + 1..], k);
    FrontDecides(py, s[i], s[i + 1..]);
  }

  lemma {:induction false} CoveredIsExcused(py: Python, records: seq<Record>, s: seq<Vuln>, i: nat, k: Key, today: int)
    requires i < |s| && CountsAs(py, s[i], k) && FirstSev(py, s, k) == Some(Sev(py, s[i]))
    ensures Counted(py, s, k)
    ensures CoveredBy(py, records, s, today, k) <==> Excused(py, records, today, s[i])
  {
    hide VulnKey, FirstSev, NormalizeSeverity, Covers;
  }

  ghost predicate OpenKeysCovered(py: Python, records: seq<Record>, a: seq<Vuln>, s: seq<Vuln>, today: int) {
    forall k :: Counted(py, s, k) && !Counted(py, a, k) ==> CoveredBy(py, records, s, today, k)
  }

  lemma {:induction false} CoveredMeansFirstsGood(py: Python, records: seq<Record>, a: seq<Vuln>, s: seq<Vuln>,
                                                  today: int)
    ensures OpenKeysCovered(py, records, a, s, today) <==>
            FirstsGood(OpenKey(py, a), Excuses(py, records, today), s)
  {
    hide CountsAs, CoveredBy, FirstSev, Excused;
    var key, good := OpenKey(py, a), Excuses(py, records, today);
    forall i | 0 <= i < |s|
      ensures key(s[i]).Some? ==> CountsAs(py, s[i], key(s[i]).value) && !Counted(py, a, key(s[i]).value)
      ensures forall k :: CountsAs(py, s[i], k) && !Counted(py, a, k) ==> key(s[i]) == Some(k)
    {
      OpenKeyMeans(py, a, s[i]);
    }
    hide OpenKey;
    if FirstsGood(key, good, s) {
      forall k | Counted(py, s, k) && !Counted(py, a, k)
        ensures CoveredBy(py, records, s, today, k)
      {
        var i := FirstCounted(py, s, k);
        assert [] + s[..i] == s[..i];
        CoveredIsExcused(py, records, s, i, k, today);
      }
    }
    if OpenKeysCovered(py, records, a, s, today) {
      forall i | 0 <= i < |s| && key(s[i]).Some? && !Has(key, [] + s[..i], key(s[i]).value)
        ensures good(s[i])
      {
        var k := key(s[i]).value;
        assert [] + s[..i] == s[..i];
        FirstSevAt(py, s, i, k);
        CoveredIsExcused(py, records, s, i, k, today);
      }
    }
  }

  lemma {:induction false} OpenKeyMeans(py: Python, a: seq<Vuln>, v: Vuln)
    ensures var key := OpenKey(py, a)(v);
            && (key.Some? ==> CountsAs(py, v, key.value) && !Counted(py, a, key.value))
            && forall k :: CountsAs(py, v, k) && !Counted(py, a, k) ==> key == Some(k)
  {
    hide Counted, Counts, VulnKey;
  }

  // ---------- The orders of the entries ----------

  ghost predicate AllIdentified(py: Python, ms: seq<Member>) {
    forall m, v :: m in ms && v in Block(m) ==> !Unidentified(py, v)
  }

  /** Every tuple that needs an exception, its key being new after `a`, has one for its own severity. */
  ghost predicate EntriesExcused(py: Python, records: seq<Record>, a: seq<Vuln>, ms: seq<Member>, today: int) {
    && AllIdentified(py, ms)
    && forall m, v :: m in ms && v in Block(m) && Counts(py, v) && !Counted(py, a, VulnKey(py, v)) ==>
         Excused(py, records, today, v)
  }

  /** No set of entries is stuck: a stuck set's every entry has a tuple, its key new after `a`, that is
      not excused, while no entry outside the set has an excused tuple of that key to come before it. */
  ghost predicate EntriesSettle(py: Python, records: seq<Record>, a: seq<Vuln>, ms: seq<Member>, today: int) {
    AllIdentified(py, ms) && NoneStuck(OpenKey(py, a), Excuses(py, records, today), Blocks(), ms)
  }

  lemma {:induction false} IdentifiedInList(py: Python, ms: seq<Member>)
    ensures AllIdentified(py, ms) <==> forall v :: v in EntryList(ms) ==> !Unidentified(py, v)
  {
    hide Unidentified, Block, Flatten;
    forall v
      ensures v in EntryList(ms) <==> exists i :: 0 <= i < |ms| && v in Block(ms[i])
    {
      FlattenMembers(Blocks(), ms, v);
    }
    assert forall i :: 0 <= i < |ms| ==> ms[i] in ms;
  }

  lemma {:induction false} IdentifiedInAnyOrder(py: Python, ms: seq<Member>, es: seq<Member>)
    requires Reordered(ms, es)
    ensures AllIdentified(py, ms) <==> AllIdentified(py, es)
  {
    hide Unidentified, Block;
    ReorderedMembers(ms, es);
  }

  /** After `a`, the entries pass in this order. */
  lemma {:induction false} RestOfEntries(py: Python, records: seq<Record>, a: seq<Vuln>, ms: seq<Member>,
                                         es: seq<Member>, today: int)
    requires Reordered(ms, es)
    ensures RestCovered(py, records, a, EntryList(es), today) <==>
            && AllIdentified(py, ms)
            && FirstsGood(OpenKey(py, a), Excuses(py, records, today), Flatten(Blocks(), es))
  {
    hide Unidentified, AllIdentified, Counted, CoveredBy, OpenKey, Excuses, FirstsGood, Reordered, Flatten;
    IdentifiedInAnyOrder(py, ms, es);
    IdentifiedInList(py, es);
    CoveredMeansFirstsGood(py, records, a, EntryList(es), today);
  }

  lemma {:induction false} ExcusedIsAllGood(py: Python, records: seq<Record>, a: seq<Vuln>, ms: seq<Member>, today: int)
    ensures EntriesExcused(py, records, a, ms, today) <==>
            && AllIdentified(py, ms)
            && AllGood(OpenKey(py, a), Excuses(py, records, today), Blocks(), ms)
  {
    hide AllIdentified, Counted, Counts, VulnKey, Excused, Block;
    assert forall m :: Blocks()(m) == Block(m);
    var key := OpenKey(py, a);
    assert forall v :: key(v).Some? <==> Counts(py, v) && !Counted(py, a, VulnKey(py, v));
  }

  /** The entries pass in every order exactly when every tuple with a new key is excused. */
  lemma {:induction false} EveryEntryOrder(py: Python, records: seq<Record>, a: seq<Vuln>, ms: seq<Member>, today: int)
    ensures (forall es :: Reordered(ms, es) ==> RestCovered(py, records, a, EntryList(es), today)) <==>
            EntriesExcused(py, records, a, ms, today)
  {
    var key, good := OpenKey(py, a), Excuses(py, records, today);
    ExcusedIsAllGood(py, records, a, ms, today);
    BlocksAreUniform(py, records, a, today);
    EveryBlockOrder(key, good, Blocks(), ms);
    hide EntriesExcused, RestCovered, FirstsGood, AllGood, Uniform, Reordered, OpenKey, Excuses, Blocks, AllIdentified;
    ItsOwnOrder(ms);
    forall es | Reordered(ms, es)
      ensures RestCovered(py, records, a, EntryList(es), today) <==>
              AllIdentified(py, ms) && FirstsGood(key, good, Flatten(Blocks(), es))
    {
      RestOfEntries(py, records, a, ms, es, today);
    }
  }

  /** They pass in some order exactly when no set of entries is stuck. */
  lemma {:induction false} SomeEntryOrder(py: Python, records: seq<Record>, a: seq<Vuln>, ms: seq<Member>, today: int)
    ensures (exists es :: Reordered(ms, es) && RestCovered(py, records, a, EntryList(es), today)) <==>
            EntriesSettle(py, records, a, ms, today)
  {
    var key, good := OpenKey(py, a), Excuses(py, records, today);
    BlocksAreUniform(py, records, a, today);
    SomeBlockOrder(key, good, Blocks(), ms);
    hide RestCovered, FirstsGood, NoneStuck, Uniform, Reordered, OpenKey, Excuses, Blocks, AllIdentified;
    forall es | Reordered(ms, es)
      ensures RestCovered(py, records, a, EntryList(es), today) <==>
              AllIdentified(py, ms) && FirstsGood(key, good, Flatten(Blocks(), es))
    {
      RestOfEntries(py, records, a, ms, es, today);
    }
  }

  // ---------- Entries of different packages ----------

  /** The package names still differ when white space around them is dropped. */
  ghost predicate DistinctNames(ms: seq<Member>) {
    forall m, n :: m in ms && n in ms && Strip(m.key) == Strip(n.key) ==> m == n
  }

  lemma {:induction false} EntryListFrom(ms: seq<Member>, v: Vuln) returns (m: Member)
    requires v in EntryList(ms)
    ensures m in ms && v in Block(m)
  {
    hide Block, Flatten;
    FlattenMembers(Blocks(), ms, v);
    var i :| 0 <= i < |ms| && v in Block(ms[i]);
    m := ms[i];
  }

  lemma {:induction false} EntriesAgree(py: Python, ms: seq<Member>)
    requires DistinctNames(ms)
    ensures SeveritiesAgree(py, EntryList(ms))
  {
    hide Block, EntryList, Get, NormalizeSeverity, NormalizeAdvisory, Strip;
    var vs := EntryList(ms);
    forall v, w, k | v in vs && w in vs && CountsAs(py, v, k) && CountsAs(py, w, k)
      ensures Sev(py, v) == Sev(py, w)
    {
      var m := EntryListFrom(ms, v);
      var n := EntryListFrom(ms, w);
      BlockMembers(m, v);
      BlockMembers(n, w);
      assert k.0 == Strip(m.key) == Strip(n.key);
    }
  }

  lemma {:induction false} SameEntryTuples(ms: seq<Member>, es: seq<Member>)
    requires Reordered(ms, es)
    ensures SameTuples(EntryList(ms), EntryList(es))
  {
    hide Block, Flatten;
    ReorderedMembers(ms, es);
    forall v
      ensures v in EntryList(ms) <==> v in EntryList(es)
    {
      FlattenMembers(Blocks(), ms, v);
      FlattenMembers(Blocks(), es, v);
      assert forall i :: 0 <= i < |ms| ==> ms[i] in es;
      assert forall i :: 0 <= i < |es| ==> es[i] in ms;
    }
  }

  /** All tuples of an entry have its severity, so while the package names differ the order of the entries
      does not matter. */
  lemma {:induction false} DistinctEntriesInAnyOrder(py: Python, records: seq<Record>, a: seq<Vuln>, ms: seq<Member>,
                                                     es: seq<Member>, today: int)
    requires Reordered(ms, es) && DistinctNames(ms)
    requires RestCovered(py, records, a, EntryList(ms), today)
    ensures RestCovered(py, records, a, EntryList(es), today)
  {
    hide RestCovered, EntryList, SeveritiesAgree, SameTuples, DistinctNames, Reordered;
    EntriesAgree(py, ms);
    SameEntryTuples(ms, es);
    RestInAnyOrder(py, records, a, EntryList(ms), EntryList(es), today);
  }
}
