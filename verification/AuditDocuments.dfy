/** The order theorems said of the gate's inputs: the text of the exceptions file and any audit, whose
    advisories and entries may come in any order. */
module AuditDocuments {
  import opened Results
  import opened Reorderings
  import opened AuditText
  import opened AuditVulns
  import opened AuditReading
  import opened AuditGate
  import opened AuditOrder
  import opened AuditEntries
  import AuditExceptions

  // ---------- The two sections of an audit ----------

  /** The members of a section; one that is not an object is ignored. */
  function Section(audit: Json, key: string): seq<Member> {
    if audit.Obj? && Get(audit.members, key).Obj? then Get(audit.members, key).members else []
  }

  /** The object with another value under `key`, everything else as it was. */
  function Put(ms: seq<Member>, key: string, value: Json): seq<Member> {
    if ms == [] then []
    else if ms[0].key == key then [Member(key, value)] + ms[1..]
    else [ms[0]] + Put(ms[1..], key, value)
  }

  /** The audit with these members in a section it has. */
  function WithSection(audit: Json, key: string, ns: seq<Member>): Json {
    if audit.Obj? && Get(audit.members, key).Obj? then Obj(Put(audit.members, key, Obj(ns))) else audit
  }

  /** The audit with its advisories and its entries in these orders. */
  function Arranged(audit: Json, ns: seq<Member>, es: seq<Member>): Json {
    WithSection(WithSection(audit, "advisories", ns), "vulnerabilities", es)
  }

  /** Orders of the advisories and of the entries. */
  ghost predicate Orders(audit: Json, ns: seq<Member>, es: seq<Member>) {
    Reordered(Section(audit, "advisories"), ns) && Reordered(Section(audit, "vulnerabilities"), es)
  }

  lemma {:induction false} PutThenGet(ms: seq<Member>, key: string, value: Json, other: string)
    requires Get(ms, key).Obj?
    ensures Get(Put(ms, key, value), other) == if other == key then value else Get(ms, other)
  {
    if ms[0].key != key {
      PutThenGet(ms[1..], key, value, other);
    }
  }

  lemma {:induction false} PutSame(ms: seq<Member>, key: string)
    ensures Put(ms, key, Get(ms, key)) == ms
  {
    if ms != [] {
      assert ms == [ms[0]] + ms[1..];
      PutSame(ms[1..], key);
    }
  }

  lemma {:induction false} SameSection(audit: Json, key: string)
    ensures WithSection(audit, key, Section(audit, key)) == audit
  {
    if audit.Obj? {
      PutSame(audit.members, key);
    }
  }

  lemma {:induction false} OneSection(audit: Json, key: string, ns: seq<Member>, other: string)
    requires Reordered(Section(audit, key), ns)
    ensures WithSection(audit, key, ns).Obj? == audit.Obj?
    ensures Section(WithSection(audit, key, ns), other) == if other == key then ns else Section(audit, other)
  {
    if audit.Obj? && Get(audit.members, key).Obj? {
      PutThenGet(audit.members, key, Obj(ns), other);
    } else {
      NothingToReorder(Section(audit, key), ns);
    }
  }

  lemma {:induction false} ArrangedSections(audit: Json, ns: seq<Member>, es: seq<Member>)
    requires Orders(audit, ns, es)
    ensures Arranged(audit, ns, es).Obj? == audit.Obj?
    ensures Section(Arranged(audit, ns, es), "advisories") == ns
    ensures Section(Arranged(audit, ns, es), "vulnerabilities") == es
  {
    hide Reordered, Section, WithSection;
    OneSection(audit, "advisories", ns, "advisories");
    OneSection(audit, "advisories", ns, "vulnerabilities");
    OneSection(WithSection(audit, "advisories", ns), "vulnerabilities", es, "advisories");
    OneSection(WithSection(audit, "advisories", ns), "vulnerabilities", es, "vulnerabilities");
  }

  lemma {:induction false} OwnOrders(audit: Json)
    ensures Orders(audit, Section(audit, "advisories"), Section(audit, "vulnerabilities"))
  {
    ItsOwnOrder(Section(audit, "advisories"));
    ItsOwnOrder(Section(audit, "vulnerabilities"));
  }

  // ---------- What raises, section by section ----------

  ghost predicate AllRead(ms: seq<Member>) {
    forall m :: m in ms ==> AdvisoryReads(m.value)
  }

  ghost predicate AdvisoriesText(ms: seq<Member>)
    requires AllRead(ms)
  {
    forall m :: m in ms ==> IsText(Get(m.value.members, "severity"))
  }

  ghost predicate EntriesText(ms: seq<Member>)
    requires AllEntriesRead(ms)
  {
    forall m :: m in ms && Identified(m.value) ==> IsText(Get(m.value.members, "severity"))
  }

  /** Both sections are read to the end. */
  ghost predicate SectionsRead(ms: seq<Member>, es: seq<Member>) {
    AllRead(ms) && AllEntriesRead(es) && AdvisoriesText(ms) && EntriesText(es)
  }

  lemma {:induction false} RaisesBySection(exceptions: string, audit: Json)
    ensures AuditReads(audit) <==>
            && audit.Obj? && AllRead(Section(audit, "advisories"))
            && AllEntriesRead(Section(audit, "vulnerabilities"))
    ensures !Raises(exceptions, audit) <==>
            && !AuditExceptions.HasBadItem(Lines(exceptions)) && audit.Obj?
            && SectionsRead(Section(audit, "advisories"), Section(audit, "vulnerabilities"))
  {
    hide AdvisoryReads, EntryReads, Get, Identified, IsText, AuditExceptions.HasBadItem;
    var ms, es := Section(audit, "advisories"), Section(audit, "vulnerabilities");
    assert forall i :: 0 <= i < |ms| ==> ms[i] in ms;
    assert forall i :: 0 <= i < |es| ==> es[i] in es;
  }

  lemma {:induction false} SectionsReadInAnyOrder(ms: seq<Member>, es: seq<Member>, ns: seq<Member>, fs: seq<Member>)
    requires Reordered(ms, ns) && Reordered(es, fs)
    ensures SectionsRead(ms, es) <==> SectionsRead(ns, fs)
  {
    hide AdvisoryReads, EntryReads, Get, Identified, IsText;
    ReorderedMembers(ms, ns);
    ReorderedMembers(es, fs);
  }

  lemma {:induction false} RaisesInAnyOrder(exceptions: string, audit: Json, ns: seq<Member>, es: seq<Member>)
    requires Orders(audit, ns, es)
    ensures Raises(exceptions, Arranged(audit, ns, es)) <==> Raises(exceptions, audit)
  {
    hide Raises, Arranged, Section, SectionsRead, AuditExceptions.HasBadItem, AuditReads, AllRead, AllEntriesRead;
    ArrangedSections(audit, ns, es);
    RaisesBySection(exceptions, audit);
    RaisesBySection(exceptions, Arranged(audit, ns, es));
    SectionsReadInAnyOrder(Section(audit, "advisories"), Section(audit, "vulnerabilities"), ns, es);
  }

  // ---------- The verdict, section by section ----------

  /** The tuples of the advisories. */
  function AdvisoryList(py: Python, ms: seq<Member>): seq<Vuln> {
    if AdvisoryTuples(py, ms).Success? then AdvisoryTuples(py, ms).value else []
  }

  function Tupled(py: Python): Member -> Result<Vuln, Raised> {
    (m: Member) => AdvisoryTuple(py, m.value)
  }

  lemma {:induction false} AdvisoryListYields(py: Python, ms: seq<Member>)
    ensures AdvisoryTuples(py, ms).Success? <==> AllRead(ms)
    ensures AllRead(ms) ==> Yield(Tupled(py), ms, AdvisoryList(py, ms))
  {
    hide AdvisoryTuple, AdvisoryTuples, AdvisoryReads;
    AdvisoryTuplesAt(py, ms);
    forall i | 0 <= i < |ms|
      ensures AdvisoryTuple(py, ms[i].value).Success? <==> AdvisoryReads(ms[i].value)
    {
      AdvisoryReadable(py, ms[i].value);
    }
    assert forall i :: 0 <= i < |ms| ==> ms[i] in ms;
  }

  lemma {:induction false} SectionTuples(py: Python, audit: Json)
    requires AuditReads(audit)
    ensures Tuples(py, audit) ==
            Success(AdvisoryList(py, Section(audit, "advisories")) + EntryList(Section(audit, "vulnerabilities")))
  {
    hide AdvisoryTuples, AllVulnerabilityTuples, Get, AllRead, AllEntriesRead, EntryList, Yield;
    RaisesBySection("", audit);
    hide AuditReads;
    AdvisoryListYields(py, Section(audit, "advisories"));
    EntriesFlatten(Section(audit, "vulnerabilities"));
    NoMembersNoTuples(py);
  }

  lemma {:induction false} NoMembersNoTuples(py: Python)
    ensures AdvisoryTuples(py, []) == Success([]) && AllVulnerabilityTuples([]) == Success([])
  {
  }

  /** Nothing raises, the exceptions accept the advisories in the order `ns`, and the entries in the order
      `es` add nothing to complain about. */
  ghost predicate PassesApart(py: Python, exceptions: string, audit: Json, ns: seq<Member>, es: seq<Member>,
                              today: int)
  {
    && !Raises(exceptions, audit) && AuditExceptions.Parse(exceptions).Success?
    && var records, a := AuditExceptions.Parse(exceptions).value, AdvisoryList(py, Section(audit, "advisories"));
       && Accepts(py, records, AdvisoryList(py, ns), today)
       && RestCovered(py, records, a, EntryList(es), today)
  }

  /** The verdict, the two sections apart. */
  lemma {:induction false} PassesBySection(py: Python, exceptions: string, audit: Json, today: int)
    ensures Passes(py, exceptions, audit, today) <==>
            PassesApart(py, exceptions, audit, Section(audit, "advisories"), Section(audit, "vulnerabilities"), today)
  {
    PassesExactly(py, exceptions, audit, today);
    RaisesExactly(py, exceptions, audit);
    assert Raises(exceptions, audit) || AuditReads(audit);
    hide Passes, Raises, AuditReads, Accepts, RestCovered, EntryList, AdvisoryList, Section, Tuples, AllReadable;
    hide AuditExceptions.Parse;
    if !Raises(exceptions, audit) {
      SectionTuples(py, audit);
      AcceptsJoin(py, AuditExceptions.Parse(exceptions).value, AdvisoryList(py, Section(audit, "advisories")),
                  EntryList(Section(audit, "vulnerabilities")), today);
    }
  }

  lemma {:induction false} ListsReorder(py: Python, ms: seq<Member>, ns: seq<Member>)
    requires Reordered(ms, ns) && AllRead(ms)
    ensures AllRead(ns) && Reordered(AdvisoryList(py, ms), AdvisoryList(py, ns))
  {
    hide AdvisoryList, AdvisoryReads, Yield, Reordered;
    ReorderedMembers(ms, ns);
    AdvisoryListYields(py, ms);
    AdvisoryListYields(py, ns);
    OrderOfValues(Tupled(py), ms, AdvisoryList(py, ms), ns, AdvisoryList(py, ns));
  }

  lemma {:induction false} ListComesFrom(py: Python, ms: seq<Member>, b: seq<Vuln>) returns (ns: seq<Member>)
    requires AllRead(ms) && Reordered(AdvisoryList(py, ms), b)
    ensures Reordered(ms, ns) && AdvisoryList(py, ns) == b
  {
    hide AdvisoryList, AdvisoryReads, Reordered;
    AdvisoryListYields(py, ms);
    ns := OrderOfArguments(Tupled(py), ms, AdvisoryList(py, ms), b);
    ReorderedMembers(ms, ns);
    AdvisoryListYields(py, ns);
    assert AdvisoryList(py, ns) == b;
  }

  /** The verdict on another arrangement, the two sections apart. */
  lemma {:induction false} PassesArranged(py: Python, exceptions: string, audit: Json, ns: seq<Member>, es: seq<Member>,
                                          today: int)
    requires Orders(audit, ns, es)
    ensures Passes(py, exceptions, Arranged(audit, ns, es), today) <==>
            PassesApart(py, exceptions, audit, ns, es, today)
  {
    PassesBySection(py, exceptions, audit, today);
    PassesBySection(py, exceptions, Arranged(audit, ns, es), today);
    RaisesInAnyOrder(exceptions, audit, ns, es);
    ArrangedSections(audit, ns, es);
    RaisesBySection(exceptions, audit);
    ParsedUnlessRaised(py, exceptions, audit);
    hide Passes, Raises, AuditReads, Accepts, RestCovered, EntryList, AdvisoryList, Section, Arranged, Reordered;
    hide AuditExceptions.Parse, AllRead, SameTuples, AuditExceptions.HasBadItem;
    if !Raises(exceptions, audit) {
      var ms := Section(audit, "advisories");
      ListsReorder(py, ms, ns);
      SameTuplesReordered(AdvisoryList(py, ms), AdvisoryList(py, ns));
      RestAfterAnyOrder(py, AuditExceptions.Parse(exceptions).value, AdvisoryList(py, ms), AdvisoryList(py, ns),
                        EntryList(es), today);
    }
  }

  lemma SameTuplesReordered(a: seq<Vuln>, b: seq<Vuln>)
    requires Reordered(a, b)
    ensures SameTuples(a, b)
  {
    ReorderedMembers(a, b);
  }

  lemma {:induction false} ParsedUnlessRaised(py: Python, exceptions: string, audit: Json)
    ensures !Raises(exceptions, audit) ==> AuditExceptions.Parse(exceptions).Success?
  {
    RaisesExactly(py, exceptions, audit);
  }

  /** The orders of the advisories give the orders of their tuples, and all of them. */
  lemma {:induction false} AdvisoryOrders(py: Python, records: seq<Record>, ms: seq<Member>, today: int)
    requires AllRead(ms)
    ensures (forall ns :: Reordered(ms, ns) ==> Accepts(py, records, AdvisoryList(py, ns), today)) <==>
            AllExcused(py, records, AdvisoryList(py, ms), today)
    ensures (exists ns :: Reordered(ms, ns) && Accepts(py, records, AdvisoryList(py, ns), today)) <==>
            KeysExcused(py, records, AdvisoryList(py, ms), today)
  {
    hide AdvisoryList, Accepts, AllExcused, KeysExcused, Reordered, AllRead;
    var a := AdvisoryList(py, ms);
    EveryOrderExactly(py, records, a, today);
    SomeOrderExactly(py, records, a, today);
    forall ns | Reordered(ms, ns)
      ensures Reordered(a, AdvisoryList(py, ns))
    {
      ListsReorder(py, ms, ns);
    }
    forall b | Reordered(a, b)
      ensures exists ns :: Reordered(ms, ns) && AdvisoryList(py, ns) == b
    {
      var ns := ListComesFrom(py, ms, b);
    }
  }

  // ---------- The orders of the advisories, everything else as it is ----------

  /** Nothing raises, every tuple of the advisories has an exception for its own severity, and the entries
      add nothing. */
  ghost predicate AdvisoriesAlways(py: Python, exceptions: string, audit: Json, today: int) {
    && !Raises(exceptions, audit) && AuditExceptions.Parse(exceptions).Success?
    && var records, a := AuditExceptions.Parse(exceptions).value, AdvisoryList(py, Section(audit, "advisories"));
       && AllExcused(py, records, a, today)
       && RestCovered(py, records, a, EntryList(Section(audit, "vulnerabilities")), today)
  }

  /** The same with one such tuple under every key. */
  ghost predicate AdvisoriesCan(py: Python, exceptions: string, audit: Json, today: int) {
    && !Raises(exceptions, audit) && AuditExceptions.Parse(exceptions).Success?
    && var records, a := AuditExceptions.Parse(exceptions).value, AdvisoryList(py, Section(audit, "advisories"));
       && KeysExcused(py, records, a, today)
       && RestCovered(py, records, a, EntryList(Section(audit, "vulnerabilities")), today)
  }

  lemma {:induction false} AdvisoriesArranged(py: Python, exceptions: string, audit: Json, ns: seq<Member>, today: int)
    requires Reordered(Section(audit, "advisories"), ns)
    ensures Passes(py, exceptions, WithSection(audit, "advisories", ns), today) <==>
            PassesApart(py, exceptions, audit, ns, Section(audit, "vulnerabilities"), today)
  {
    hide Passes, PassesApart, Section, WithSection, Reordered;
    var es := Section(audit, "vulnerabilities");
    ItsOwnOrder(es);
    PassesArranged(py, exceptions, audit, ns, es, today);
    OneSection(audit, "advisories", ns, "vulnerabilities");
    SameSection(WithSection(audit, "advisories", ns), "vulnerabilities");
  }

  /** Exactly when the gate passes in every, and in some, order of the advisories. */
  lemma {:induction false} AdvisoryOrdersExactly(py: Python, exceptions: string, audit: Json, today: int)
    ensures (forall ns :: Reordered(Section(audit, "advisories"), ns) ==>
               Passes(py, exceptions, WithSection(audit, "advisories", ns), today)) <==>
            AdvisoriesAlways(py, exceptions, audit, today)
    ensures (exists ns :: Reordered(Section(audit, "advisories"), ns) &&
               Passes(py, exceptions, WithSection(audit, "advisories", ns), today)) <==>
            AdvisoriesCan(py, exceptions, audit, today)
  {
    RaisesBySection(exceptions, audit);
    hide Passes, Raises, Accepts, RestCovered, EntryList, AdvisoryList, Section, WithSection, Reordered, AllRead;
    hide AuditExceptions.Parse, AllExcused, KeysExcused, AuditReads, AuditExceptions.HasBadItem;
    var ms := Section(audit, "advisories");
    ItsOwnOrder(ms);
    forall ns | Reordered(ms, ns)
      ensures Passes(py, exceptions, WithSection(audit, "advisories", ns), today) <==>
              PassesApart(py, exceptions, audit, ns, Section(audit, "vulnerabilities"), today)
    {
      AdvisoriesArranged(py, exceptions, audit, ns, today);
    }
    ParsedUnlessRaised(py, exceptions, audit);
    if !Raises(exceptions, audit) {
      AdvisoryOrders(py, AuditExceptions.Parse(exceptions).value, ms, today);
    }
  }

  // ---------- The orders of both sections ----------

  /** Nothing raises, and every tuple that must be looked up has an exception for its own severity; among
      the entries, those whose key no advisory has. */
  ghost predicate PassesAlways(py: Python, exceptions: string, audit: Json, today: int) {
    && !Raises(exceptions, audit) && AuditExceptions.Parse(exceptions).Success?
    && var records, a := AuditExceptions.Parse(exceptions).value, AdvisoryList(py, Section(audit, "advisories"));
       && AllExcused(py, records, a, today)
       && EntriesExcused(py, records, a, Section(audit, "vulnerabilities"), today)
  }

  /** Nothing raises, every key of the advisories has a tuple with such an exception, and no set of entries
      is stuck. */
  ghost predicate CanPass(py: Python, exceptions: string, audit: Json, today: int) {
    && !Raises(exceptions, audit) && AuditExceptions.Parse(exceptions).Success?
    && var records, a := AuditExceptions.Parse(exceptions).value, AdvisoryList(py, Section(audit, "advisories"));
       && KeysExcused(py, records, a, today)
       && EntriesSettle(py, records, a, Section(audit, "vulnerabilities"), today)
  }

  /** The gate passes whatever the orders of advisories and entries exactly when all tuples are excused. */
  lemma {:induction false} EveryDocumentOrder(py: Python, exceptions: string, audit: Json, today: int)
    ensures (forall ns, es :: Orders(audit, ns, es) ==> Passes(py, exceptions, Arranged(audit, ns, es), today)) <==>
            PassesAlways(py, exceptions, audit, today)
  {
    RaisesBySection(exceptions, audit);
    hide Passes, Raises, Accepts, RestCovered, EntryList, AdvisoryList, Section, Arranged, Reordered, AllRead;
    hide AuditExceptions.Parse, AllExcused, EntriesExcused, AuditReads, AuditExceptions.HasBadItem;
    var ms, ws := Section(audit, "advisories"), Section(audit, "vulnerabilities");
    ItsOwnOrder(ms);
    ItsOwnOrder(ws);
    forall ns, es | Orders(audit, ns, es)
      ensures Passes(py, exceptions, Arranged(audit, ns, es), today) <==>
              PassesApart(py, exceptions, audit, ns, es, today)
    {
      PassesArranged(py, exceptions, audit, ns, es, today);
    }
    assert Orders(audit, ms, ws);
    ParsedUnlessRaised(py, exceptions, audit);
    if !Raises(exceptions, audit) {
      var records := AuditExceptions.Parse(exceptions).value;
      AdvisoryOrders(py, records, ms, today);
      EveryEntryOrder(py, records, AdvisoryList(py, ms), ws, today);
      if forall ns, es :: Orders(audit, ns, es) ==> Passes(py, exceptions, Arranged(audit, ns, es), today) {
        forall ns | Reordered(ms, ns)
          ensures Accepts(py, records, AdvisoryList(py, ns), today)
        {
          assert Orders(audit, ns, ws);
        }
        forall es | Reordered(ws, es)
          ensures RestCovered(py, records, AdvisoryList(py, ms), EntryList(es), today)
        {
          assert Orders(audit, ms, es);
        }
      }
    }
  }

  /** It passes in some orders exactly when every key of the advisories has an excused tuple and no set of
      entries is stuck. */
  lemma {:induction false} SomeDocumentOrder(py: Python, exceptions: string, audit: Json, today: int)
    ensures (exists ns, es :: Orders(audit, ns, es) && Passes(py, exceptions, Arranged(audit, ns, es), today)) <==>
            CanPass(py, exceptions, audit, today)
  {
    RaisesBySection(exceptions, audit);
    hide Passes, Raises, Accepts, RestCovered, EntryList, AdvisoryList, Section, Arranged, Reordered, AllRead;
    hide AuditExceptions.Parse, KeysExcused, EntriesSettle, AuditReads, AuditExceptions.HasBadItem;
    var ms, ws := Section(audit, "advisories"), Section(audit, "vulnerabilities");
    forall ns, es | Orders(audit, ns, es)
      ensures Passes(py, exceptions, Arranged(audit, ns, es), today) <==>
              PassesApart(py, exceptions, audit, ns, es, today)
    {
      PassesArranged(py, exceptions, audit, ns, es, today);
    }
    ParsedUnlessRaised(py, exceptions, audit);
    if !Raises(exceptions, audit) {
      var records := AuditExceptions.Parse(exceptions).value;
      AdvisoryOrders(py, records, ms, today);
      SomeEntryOrder(py, records, AdvisoryList(py, ms), ws, today);
      if CanPass(py, exceptions, audit, today) {
        var ns :| Reordered(ms, ns) && Accepts(py, records, AdvisoryList(py, ns), today);
        var es :| Reordered(ws, es) && RestCovered(py, records, AdvisoryList(py, ms), EntryList(es), today);
        assert Orders(audit, ns, es);
      }
    }
  }

  /** The verdict is the same in all orders exactly when the inputs meet the condition of every order or
      fail that of some order. */
  lemma {:induction false} DocumentOrderFree(py: Python, exceptions: string, audit: Json, today: int)
    ensures (forall ns, es, os, fs :: Orders(audit, ns, es) && Orders(audit, os, fs) ==>
               (Passes(py, exceptions, Arranged(audit, ns, es), today) <==>
                Passes(py, exceptions, Arranged(audit, os, fs), today))) <==>
            (CanPass(py, exceptions, audit, today) ==> PassesAlways(py, exceptions, audit, today))
  {
    hide Passes, CanPass, PassesAlways, Orders, Arranged;
    EveryDocumentOrder(py, exceptions, audit, today);
    SomeDocumentOrder(py, exceptions, audit, today);
  }

  /** While the package names of the entries differ beyond white space, their order does not matter,
      whatever else the audit holds. */
  lemma {:induction false} EntriesOrderFree(py: Python, exceptions: string, audit: Json, es: seq<Member>, today: int)
    requires Reordered(Section(audit, "vulnerabilities"), es) && DistinctNames(Section(audit, "vulnerabilities"))
    ensures Passes(py, exceptions, WithSection(audit, "vulnerabilities", es), today) <==>
            Passes(py, exceptions, audit, today)
  {
    hide Passes, Raises, Accepts, RestCovered, EntryList, AdvisoryList, Section, WithSection, Reordered, DistinctNames;
    hide AuditExceptions.Parse;
    var ms, ws := Section(audit, "advisories"), Section(audit, "vulnerabilities");
    ItsOwnOrder(ms);
    PassesArranged(py, exceptions, audit, ms, es, today);
    SameSection(audit, "advisories");
    PassesBySection(py, exceptions, audit, today);
    ParsedUnlessRaised(py, exceptions, audit);
    NamesReordered(ws, es);
    if !Raises(exceptions, audit) {
      var records, a := AuditExceptions.Parse(exceptions).value, AdvisoryList(py, ms);
      if RestCovered(py, records, a, EntryList(ws), today) {
        DistinctEntriesInAnyOrder(py, records, a, ws, es, today);
      }
      if RestCovered(py, records, a, EntryList(es), today) {
        DistinctEntriesInAnyOrder(py, records, a, es, ws, today);
      }
    }
  }

  lemma {:induction false} NamesReordered(ms: seq<Member>, ns: seq<Member>)
    requires Reordered(ms, ns) && DistinctNames(ms)
    ensures Reordered(ns, ms) && DistinctNames(ns)
  {
    hide Strip;
    ReorderedMembers(ms, ns);
  }
}
