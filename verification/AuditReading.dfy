/** Which audits can be read to the end, and which tuples they yield, said of the JSON itself. */
module AuditReading {
  import opened Results
  import opened AuditVulns

  // ---------- Which audits can be read ----------

  /** An advisory is an object, and its `cves` is a list or a string unless it is empty or the advisory
      has a better identifier. */
  predicate AdvisoryReads(a: Json) {
    && a.Obj?
    && (|| Truthy(Get(a.members, "github_advisory_id")) || Truthy(Get(a.members, "url"))
        || var cves := Get(a.members, "cves"); !Truthy(cves) || cves.List? || cves.Str?)
  }

  predicate TitleReads(item: Json) {
    item.Obj? && Truthy(TitleOf(item.members)) ==> TitleOf(item.members).Str?
  }

  /** An entry of "vulnerabilities" is an object, and the titles its `via` list offers are strings. */
  predicate EntryReads(v: Json) {
    && v.Obj?
    && var via := Get(v.members, "via");
       via.List? ==> forall i :: 0 <= i < |via.items| ==> TitleReads(via.items[i])
  }

  /** A section that is not an object is ignored. */
  predicate AuditReads(audit: Json) {
    && audit.Obj?
    && var advisories, vulnerabilities := Get(audit.members, "advisories"), Get(audit.members, "vulnerabilities");
       && (advisories.Obj? ==>
             forall i :: 0 <= i < |advisories.members| ==> AdvisoryReads(advisories.members[i].value))
       && (vulnerabilities.Obj? ==>
             forall i :: 0 <= i < |vulnerabilities.members| ==> EntryReads(vulnerabilities.members[i].value))
  }

  lemma {:induction false} AdvisoryReadable(py: Python, a: Json)
    ensures AdvisoryTuple(py, a).Success? <==> AdvisoryReads(a)
  {
  }

  lemma {:induction false} ViaEntriesFrom(items: seq<Json>, e: (Json, Json))
    ensures e in ViaEntries(items) <==> exists i :: 0 <= i < |items| && ViaEntry(items[i]) == Some(e)
  {
    if items != [] {
      ViaEntriesFrom(items[1..], e);
      assert forall i :: 0 < i < |items| ==> items[i] == items[1..][i - 1];
      assert forall i :: 0 <= i < |items[1..]| ==> items[1..][i] == items[i + 1];
    }
  }

  lemma {:induction false} EntryReadable(m: Member)
    ensures VulnerabilityTuples(m).Success? <==> EntryReads(m.value)
  {
    VulnerabilityReadable(m);
    if m.value.Obj? {
      var via := Get(m.value.members, "via");
      if via.List? {
        forall e
          ensures e in ViaEntries(via.items) <==> exists i :: 0 <= i < |via.items| && ViaEntry(via.items[i]) == Some(e)
        {
          ViaEntriesFrom(via.items, e);
        }
        forall i | 0 <= i < |via.items| && ViaEntry(via.items[i]).Some?
          ensures ViaEntry(via.items[i]).value in ViaEntries(via.items)
        {
          var e := ViaEntry(via.items[i]).value;
          assert ViaEntry(via.items[i]) == Some(e);
        }
      }
    }
  }

  lemma {:induction false} SectionReadable(ms: seq<Member>)
    ensures AllVulnerabilityTuples(ms).Success? <==> forall i :: 0 <= i < |ms| ==> EntryReads(ms[i].value)
  {
    hide VulnerabilityTuples, EntryReads;
    if ms != [] {
      EntryReadable(ms[0]);
      SectionReadable(ms[1..]);
      assert forall i :: 0 < i < |ms| ==> ms[i] == ms[1..][i - 1];
      assert forall i :: 0 <= i < |ms[1..]| ==> ms[1..][i] == ms[i + 1];
    }
  }

  /** Exactly when the generator runs to its end. */
  lemma {:induction false} AuditReadableExactly(py: Python, audit: Json)
    ensures Tuples(py, audit).Success? <==> AuditReads(audit)
  {
    hide AdvisoryTuple, AdvisoryReads, EntryReads, AdvisoryTuples, AllVulnerabilityTuples, Get;
    if audit.Obj? {
      var advisories, vulnerabilities := Get(audit.members, "advisories"), Get(audit.members, "vulnerabilities");
      if advisories.Obj? {
        AdvisoryTuplesAt(py, advisories.members);
        forall i | 0 <= i < |advisories.members|
          ensures AdvisoryTuple(py, advisories.members[i].value).Success? <==>
                  AdvisoryReads(advisories.members[i].value)
        {
          AdvisoryReadable(py, advisories.members[i].value);
        }
      }
      if vulnerabilities.Obj? {
        SectionReadable(vulnerabilities.members);
      }
    }
  }

  // ---------- Which tuples a readable audit yields ----------

  /** The tuples of one readable entry: one for each usable identifier in `via` order, all with the
      entry's name and severity and the usable titles joined. */
  lemma {:induction false} EntryTuplesAt(m: Member, k: nat)
    requires EntryReads(m.value)
    requires k < |TruthyOnly(Ids(Via(Get(m.value.members, "via"))))|
    ensures var (es, vs) := (Via(Get(m.value.members, "via")), VulnerabilityTuples(m));
            && vs.Success? && |vs.value| == |TruthyOnly(Ids(es))|
            && vs.value[k] == Vuln(Str(m.key), Get(m.value.members, "severity"), TruthyOnly(Ids(es))[k],
                                   Str(JoinTitles(TruthyOnly(Titles(es))).value))
  {
    EntryReadable(m);
    var es := Via(Get(m.value.members, "via"));
    LabelAt(Str(m.key), Get(m.value.members, "severity"), Str(JoinTitles(TruthyOnly(Titles(es))).value),
            TruthyOnly(Ids(es)));
  }

  lemma {:induction false} LabelAt(name: Json, severity: Json, title: Json, ids: seq<Json>)
    ensures |Label(name, severity, title, ids)| == |ids|
    ensures forall i :: 0 <= i < |ids| ==> Label(name, severity, title, ids)[i] == Vuln(name, severity, ids[i], title)
  {
    if ids != [] {
      LabelAt(name, severity, title, ids[1..]);
    }
  }

  lemma {:induction false} IdMembers(es: seq<(Json, Json)>)
    ensures |Ids(es)| == |es| && forall i :: 0 <= i < |es| ==> Ids(es)[i] == es[i].0
  {
    if es != [] {
      IdMembers(es[1..]);
    }
  }

  /** The entry yields the tuple. */
  ghost predicate Yields(m: Member, v: Vuln)
    requires EntryReads(m.value)
  {
    var ms := m.value.members;
    var es := Via(Get(ms, "via"));
    && v.name == Str(m.key) && v.severity == Get(ms, "severity")
    && Truthy(v.advisory) && (exists e :: e in es && e.0 == v.advisory)
    && JoinTitles(TruthyOnly(Titles(es))).Success?
    && v.title == Str(JoinTitles(TruthyOnly(Titles(es))).value)
  }

  lemma {:induction false} EntryYields(m: Member, v: Vuln)
    requires EntryReads(m.value)
    ensures VulnerabilityTuples(m).Success? && (v in VulnerabilityTuples(m).value <==> Yields(m, v))
  {
    EntryReadable(m);
    hide Get, Via, JoinTitles;
    var es := Via(Get(m.value.members, "via"));
    var ids, title := TruthyOnly(Ids(es)), Str(JoinTitles(TruthyOnly(Titles(es))).value);
    LabelAt(Str(m.key), Get(m.value.members, "severity"), title, ids);
    TruthyMembers(Ids(es));
    IdMembers(es);
    if Yields(m, v) {
      var e :| e in es && e.0 == v.advisory;
      var i :| 0 <= i < |es| && es[i] == e;
      assert Ids(es)[i] == v.advisory;
      assert v.advisory in ids;
      var k :| 0 <= k < |ids| && ids[k] == v.advisory;
      assert VulnerabilityTuples(m).value[k] == v;
    }
    if v in VulnerabilityTuples(m).value {
      var k :| 0 <= k < |ids| && VulnerabilityTuples(m).value[k] == v;
      assert ids[k] in ids;
      var i :| 0 <= i < |es| && Ids(es)[i] == ids[k];
      assert es[i] in es;
    }
  }

  lemma {:induction false} SectionYields(ms: seq<Member>, v: Vuln)
    requires forall i :: 0 <= i < |ms| ==> EntryReads(ms[i].value)
    ensures AllVulnerabilityTuples(ms).Success?
    ensures v in AllVulnerabilityTuples(ms).value <==> FromEntry(ms, v)
  {
    hide VulnerabilityTuples, EntryReads, Yields;
    if ms != [] {
      EntryYields(ms[0], v);
      var rest := ms[1..];
      assert forall i :: 0 < i < |ms| ==> ms[i] == rest[i - 1];
      assert forall i :: 0 <= i < |rest| ==> rest[i] == ms[i + 1];
      SectionYields(rest, v);
    }
  }

  /** Some advisory is the tuple. */
  ghost predicate FromAdvisory(py: Python, ms: seq<Member>, v: Vuln) {
    exists i :: 0 <= i < |ms| && AdvisoryTuple(py, ms[i].value) == Success(v)
  }

  /** Some entry yields the tuple. */
  ghost predicate FromEntry(ms: seq<Member>, v: Vuln)
    requires forall i :: 0 <= i < |ms| ==> EntryReads(ms[i].value)
  {
    exists i :: 0 <= i < |ms| && Yields(ms[i], v)
  }

  /** Exactly the tuples a readable audit yields: one shape for each section. */
  lemma {:induction false} AuditYields(py: Python, audit: Json, v: Vuln)
    requires AuditReads(audit)
    ensures Tuples(py, audit).Success?
    ensures var advisories, vulnerabilities := Get(audit.members, "advisories"), Get(audit.members, "vulnerabilities");
            v in Tuples(py, audit).value <==>
            || (advisories.Obj? && FromAdvisory(py, advisories.members, v))
            || (vulnerabilities.Obj? && FromEntry(vulnerabilities.members, v))
  {
    AuditReadableExactly(py, audit);
    hide AdvisoryTuple, AdvisoryReads, EntryReads, AdvisoryTuples, AllVulnerabilityTuples, Get, Yields;
    var advisories, vulnerabilities := Get(audit.members, "advisories"), Get(audit.members, "vulnerabilities");
    var first := if advisories.Obj? then AdvisoryTuples(py, advisories.members) else Success([]);
    var second := if vulnerabilities.Obj? then AllVulnerabilityTuples(vulnerabilities.members) else Success([]);
    assert first.Success? && second.Success? && Tuples(py, audit).value == first.value + second.value;
    hide Tuples;
    assert v in first.value <==> advisories.Obj? && FromAdvisory(py, advisories.members, v) by {
      if advisories.Obj? {
        AdvisoriesYield(py, advisories.members, v);
      }
    }
    assert v in second.value <==> vulnerabilities.Obj? && FromEntry(vulnerabilities.members, v) by {
      if vulnerabilities.Obj? {
        SectionYields(vulnerabilities.members, v);
      }
    }
  }

  lemma {:induction false} AdvisoriesYield(py: Python, ms: seq<Member>, v: Vuln)
    requires AdvisoryTuples(py, ms).Success?
    ensures v in AdvisoryTuples(py, ms).value <==> FromAdvisory(py, ms, v)
  {
    AdvisoryTuplesAt(py, ms);
    hide AdvisoryTuple, AdvisoryTuples;
    var vs := AdvisoryTuples(py, ms).value;
    if v in vs {
      var i :| 0 <= i < |vs| && vs[i] == v;
      assert AdvisoryTuple(py, ms[i].value) == Success(v);
    }
    if i :| 0 <= i < |ms| && AdvisoryTuple(py, ms[i].value) == Success(v) {
      assert vs[i] == v;
    }
  }

  // ---------- Severities ----------

  /** `(severity or "").strip()` works. */
  predicate IsText(severity: Json) {
    Truthy(severity) ==> severity.Str?
  }

  /** The entry has an identifier, so its severity is looked at. */
  ghost predicate Identified(v: Json)
    requires EntryReads(v)
  {
    exists e :: e in Via(Get(v.members, "via")) && Truthy(e.0)
  }

  /** Every severity that reaches the gate is text, or nothing. */
  ghost predicate SeveritiesAreText(audit: Json)
    requires AuditReads(audit)
  {
    var advisories, vulnerabilities := Get(audit.members, "advisories"), Get(audit.members, "vulnerabilities");
    && (advisories.Obj? ==> forall i :: 0 <= i < |advisories.members| ==>
          IsText(Get(advisories.members[i].value.members, "severity")))
    && (vulnerabilities.Obj? ==> forall i :: 0 <= i < |vulnerabilities.members| ==>
          var entry := vulnerabilities.members[i].value;
          Identified(entry) ==> IsText(Get(entry.members, "severity")))
  }

  lemma {:induction false} IdentifiedYields(m: Member) returns (v: Vuln)
    requires EntryReads(m.value) && Identified(m.value)
    ensures Yields(m, v)
  {
    EntryReadable(m);
    var es := Via(Get(m.value.members, "via"));
    var e :| e in es && Truthy(e.0);
    v := Vuln(Str(m.key), Get(m.value.members, "severity"), e.0, Str(JoinTitles(TruthyOnly(Titles(es))).value));
  }

  lemma {:induction false} SeveritiesReachGate(py: Python, audit: Json)
    requires AuditReads(audit)
    ensures Tuples(py, audit).Success?
    ensures (forall i :: 0 <= i < |Tuples(py, audit).value| ==> IsText(Tuples(py, audit).value[i].severity)) <==>
            SeveritiesAreText(audit)
  {
    AuditReadableExactly(py, audit);
    var advisories, vulnerabilities := Get(audit.members, "advisories"), Get(audit.members, "vulnerabilities");
    var vs := Tuples(py, audit).value;
    hide Get, AdvisoryReads, EntryReads, Tuples, PickAdvisoryId, Via;
    if forall i :: 0 <= i < |vs| ==> IsText(vs[i].severity) {
      if advisories.Obj? {
        forall i | 0 <= i < |advisories.members|
          ensures IsText(Get(advisories.members[i].value.members, "severity"))
        {
          AdvisoryReadable(py, advisories.members[i].value);
          var v := AdvisoryTuple(py, advisories.members[i].value).value;
          AuditYields(py, audit, v);
          assert v in vs;
        }
      }
      if vulnerabilities.Obj? {
        forall i | 0 <= i < |vulnerabilities.members| && Identified(vulnerabilities.members[i].value)
          ensures IsText(Get(vulnerabilities.members[i].value.members, "severity"))
        {
          var v := IdentifiedYields(vulnerabilities.members[i]);
          AuditYields(py, audit, v);
          assert v in vs;
        }
      }
    }
    if SeveritiesAreText(audit) {
      forall k | 0 <= k < |vs|
        ensures IsText(vs[k].severity)
      {
        assert vs[k] in vs;
        AuditYields(py, audit, vs[k]);
      }
    }
  }
}
