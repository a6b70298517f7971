/** The verdict in the words of the two files: which texts of an exception and of a finding must agree,
    and how. */
module AuditMeaning {
  import opened Results
  import opened AuditText
  import opened AuditVulns
  import opened AuditGate
  import AuditExceptions

  // ---------- Exceptions ----------

  predicate Filled(r: Record, field: string) {
    field in r && r[field] != ""
  }

  /** The five fields are there and not empty, the date is one, and package and advisory are not blank. */
  predicate SoundRecord(py: Python, r: Record) {
    && Filled(r, "package") && Filled(r, "advisory") && Filled(r, "severity") && Filled(r, "mitigation")
    && Filled(r, "expires_on")
    && py.isoDate(r["expires_on"]).Some?
    && Strip(r["package"]) != "" && py.lower(Strip(r["advisory"])) != ""
  }

  /** Two exceptions for the same package and advisory; only the advisory's case is ignored. */
  predicate SameTarget(py: Python, r: Record, s: Record)
    requires SoundRecord(py, r) && SoundRecord(py, s)
  {
    && Strip(r["package"]) == Strip(s["package"])
    && py.lower(Strip(r["advisory"])) == py.lower(Strip(s["advisory"]))
  }

  // ---------- Findings ----------

  /** `str(x)` without the white space around it; None gives nothing. */
  function Shown(py: Python, j: Json): string {
    if j.Null? then "" else Strip(ToStr(py, j))
  }

  /** The severity's text; nothing for a missing or empty one. */
  function SeverityText(v: Vuln): string {
    if v.severity.Str? then v.severity.s else ""
  }

  function Severity(py: Python, v: Vuln): string {
    py.lower(Strip(SeverityText(v)))
  }

  /** High or critical, in any case and with any white space around, and about a package. */
  predicate Alarming(py: Python, v: Vuln) {
    && (Truthy(v.severity) ==> v.severity.Str?)
    && (Severity(py, v) == "high" || Severity(py, v) == "critical")
    && Truthy(v.name)
  }

  /** The advisory's text in lower case. */
  function AdvisoryText(py: Python, v: Vuln): string {
    if v.advisory.Null? then "" else py.lower(Shown(py, v.advisory))
  }

  predicate SameFinding(py: Python, v: Vuln, w: Vuln) {
    && Alarming(py, v) && Alarming(py, w)
    && Shown(py, v.name) == Shown(py, w.name) && AdvisoryText(py, v) == AdvisoryText(py, w)
  }

  /** The exception is for the finding's package and advisory. */
  predicate IsFor(py: Python, r: Record, v: Vuln)
    requires SoundRecord(py, r)
  {
    Strip(r["package"]) == Shown(py, v.name) && py.lower(Strip(r["advisory"])) == AdvisoryText(py, v)
  }

  /** It has not expired, and its severity is blank or this one. */
  predicate InForce(py: Python, r: Record, severity: string, today: int)
    requires SoundRecord(py, r)
  {
    && py.isoDate(r["expires_on"]).value >= today
    && (py.lower(Strip(r["severity"])) == "" || py.lower(Strip(r["severity"])) == severity)
  }

  // ---------- The verdict ----------

  /** The first tuple about the same finding as `v`. */
  ghost predicate FirstAlike(py: Python, vulns: seq<Vuln>, v: Vuln, i: nat) {
    i < |vulns| && SameFinding(py, vulns[i], v) && forall j :: 0 <= j < i ==> !SameFinding(py, vulns[j], v)
  }

  ghost predicate AllSound(py: Python, records: seq<Record>) {
    && (forall r :: r in records ==> SoundRecord(py, r))
    && forall i, j :: 0 <= i < j < |records| ==> !SameTarget(py, records[i], records[j])
  }

  /** An exception in force, for the severity of the first tuple about the same finding. */
  ghost predicate Answered(py: Python, records: seq<Record>, vulns: seq<Vuln>, v: Vuln, today: int)
    requires AllSound(py, records)
  {
    exists r, i: nat :: r in records && FirstAlike(py, vulns, v, i) && IsFor(py, r, v) &&
                        InForce(py, r, Severity(py, vulns[i]), today)
  }

  /** What `Accepts` asks, text by text. */
  ghost predicate AcceptsTexts(py: Python, records: seq<Record>, vulns: seq<Vuln>, today: int) {
    && AllSound(py, records)
    && forall v :: v in vulns && Alarming(py, v) ==>
         AdvisoryText(py, v) != "" && Answered(py, records, vulns, v, today)
  }

  // ---------- The two agree ----------

  lemma {:induction false} RecordMeans(py: Python, r: Record)
    ensures Keyed(py, r).Some? <==> SoundRecord(py, r)
    ensures SoundRecord(py, r) ==>
              && Keyed(py, r) == Some((Strip(r["package"]), py.lower(Strip(r["advisory"]))))
              && EntryOf(py, r) == Entry(py.lower(Strip(r["severity"])), py.isoDate(r["expires_on"]).value)
  {
    hide Strip;
    assert REQUIRED_FIELDS == {"package", "advisory", "severity", "mitigation", "expires_on"};
  }

  lemma {:induction false} FindingMeans(py: Python, v: Vuln)
    ensures Relevant(py, v) <==> Alarming(py, v)
    ensures Alarming(py, v) ==> Sev(py, v) == Severity(py, v)
    ensures VulnKey(py, v) == (Shown(py, v.name), AdvisoryText(py, v))
  {
    hide Strip, ToStr;
  }

  lemma {:induction false} SoundMeans(py: Python, records: seq<Record>)
    ensures AllWellFormed(py, records) && DistinctKeys(py, records) <==> AllSound(py, records)
  {
    hide Keyed, SoundRecord;
    forall i | 0 <= i < |records|
      ensures records[i] in records && (Keyed(py, records[i]).Some? <==> SoundRecord(py, records[i]))
    {
      RecordMeans(py, records[i]);
    }
    forall i, j | 0 <= i < j < |records| && SoundRecord(py, records[i]) && SoundRecord(py, records[j])
      ensures SameTarget(py, records[i], records[j]) <==> Keyed(py, records[i]) == Keyed(py, records[j])
    {
      RecordMeans(py, records[i]);
      RecordMeans(py, records[j]);
    }
  }

  lemma {:induction false} AlikeMeans(py: Python, v: Vuln, w: Vuln, k: Key)
    requires CountsAs(py, w, k)
    ensures CountsAs(py, v, k) <==> SameFinding(py, v, w)
  {
    hide Relevant, VulnKey, Alarming, Shown, AdvisoryText;
    FindingMeans(py, v);
    FindingMeans(py, w);
  }

  lemma {:induction false} FirstMeans(py: Python, vulns: seq<Vuln>, v: Vuln, k: Key) returns (i: nat)
    requires v in vulns && CountsAs(py, v, k)
    ensures FirstAlike(py, vulns, v, i) && CountsAs(py, vulns[i], k)
    ensures FirstSev(py, vulns, k) == Some(Severity(py, vulns[i]))
  {
    hide CountsAs, SameFinding, FirstSev, Severity;
    forall w
      ensures CountsAs(py, w, k) <==> SameFinding(py, w, v)
    {
      AlikeMeans(py, w, v, k);
    }
    var n :| 0 <= n < |vulns| && vulns[n] == v;
    i := 0;
    while !CountsAs(py, vulns[i], k)
      invariant i <= n && forall j :: 0 <= j < i ==> !CountsAs(py, vulns[j], k)
      decreases n - i
    {
      i := i + 1;
    }
    FirstSevIs(py, vulns, k, i);
    SevMeans(py, vulns[i], k);
  }

  lemma {:induction false} SevMeans(py: Python, v: Vuln, k: Key)
    requires CountsAs(py, v, k)
    ensures Sev(py, v) == Severity(py, v)
  {
    FindingMeans(py, v);
  }

  lemma {:induction false} FirstSevIs(py: Python, vulns: seq<Vuln>, k: Key, i: nat)
    requires i < |vulns| && CountsAs(py, vulns[i], k) && forall j :: 0 <= j < i ==> !CountsAs(py, vulns[j], k)
    ensures FirstSev(py, vulns, k) == Some(Sev(py, vulns[i]))
  {
    hide VulnKey, NormalizeSeverity;
    var front := vulns[..|vulns| - 1];
    if i < |vulns| - 1 {
      FirstSevIs(py, front, k, i);
    } else {
      assert !Counted(py, front, k);
    }
  }

  lemma {:induction false} CoversMeans(py: Python, r: Record, v: Vuln, k: Key, severity: string, today: int)
    requires CountsAs(py, v, k) && SoundRecord(py, r)
    ensures Covers(py, r, k, severity, today) <==> IsFor(py, r, v) && InForce(py, r, severity, today)
  {
    hide SoundRecord, Keyed, EntryOf, VulnKey, Counts, Shown, AdvisoryText, Strip;
    RecordMeans(py, r);
    FindingMeans(py, v);
  }

  lemma {:induction false} AnsweredMeans(py: Python, records: seq<Record>, vulns: seq<Vuln>, v: Vuln, k: Key,
                                         today: int)
    requires AllSound(py, records) && v in vulns && CountsAs(py, v, k)
    ensures Counted(py, vulns, k)
    ensures CoveredBy(py, records, vulns, today, k) <==> Answered(py, records, vulns, v, today)
  {
    hide CountsAs, SoundRecord, IsFor, InForce, Covers, SameFinding, FirstSev, Severity, SameTarget;
    var i := FirstMeans(py, vulns, v, k);
    assert forall j: nat :: FirstAlike(py, vulns, v, j) ==> j == i;
    var severity := Severity(py, vulns[i]);
    forall r | r in records
      ensures Covers(py, r, k, severity, today) <==> IsFor(py, r, v) && InForce(py, r, severity, today)
    {
      CoversMeans(py, r, v, k, severity, today);
    }
    assert forall n :: 0 <= n < |records| ==> records[n] in records;
  }

  /** The gate's condition, said of the texts in the exceptions and in the tuples: five fields, two
      severities, white space around texts ignored, and case in all but package names. */
  lemma {:induction false} AcceptsMeans(py: Python, records: seq<Record>, vulns: seq<Vuln>, today: int)
    ensures Accepts(py, records, vulns, today) <==> AcceptsTexts(py, records, vulns, today)
  {
    hide AllWellFormed, DistinctKeys, AllSound, CoveredBy, Answered, Relevant, VulnKey, Alarming, AdvisoryText, Shown;
    SoundMeans(py, records);
    forall v | v in vulns
      ensures Relevant(py, v) <==> Alarming(py, v)
      ensures VulnKey(py, v).1 == AdvisoryText(py, v)
    {
      FindingMeans(py, v);
    }
    assert forall i :: 0 <= i < |vulns| ==> vulns[i] in vulns;
    if AllSound(py, records) {
      forall v, k | v in vulns && CountsAs(py, v, k)
        ensures Counted(py, vulns, k)
        ensures CoveredBy(py, records, vulns, today, k) <==> Answered(py, records, vulns, v, today)
      {
        AnsweredMeans(py, records, vulns, v, k, today);
      }
      assert forall v :: v in vulns && Counts(py, v) ==> CountsAs(py, v, VulnKey(py, v));
    }
  }

  /** Exit code 0, said of texts. */
  lemma {:induction false} PassesMeans(py: Python, exceptions: string, audit: Json, today: int)
    ensures Passes(py, exceptions, audit, today) <==>
            && !Raises(exceptions, audit)
            && AuditExceptions.Parse(exceptions).Success? && Tuples(py, audit).Success?
            && AcceptsTexts(py, AuditExceptions.Parse(exceptions).value, Tuples(py, audit).value, today)
  {
    PassesExactly(py, exceptions, audit, today);
    hide Passes, Raises, Accepts, AcceptsTexts, Tuples, AuditExceptions.Parse;
    if AuditExceptions.Parse(exceptions).Success? && Tuples(py, audit).Success? {
      AcceptsMeans(py, AuditExceptions.Parse(exceptions).value, Tuples(py, audit).value, today);
    }
  }

  /** One exception and one high or critical finding: exactly the texts that must agree. */
  lemma {:induction false} OneForOne(py: Python, r: Record, v: Vuln, today: int)
    requires SoundRecord(py, r) && Alarming(py, v)
    requires py.isoDate(r["expires_on"]).value >= today && py.lower(Strip(r["severity"])) == Severity(py, v)
    ensures Accepts(py, [r], [v], today) <==>
            && !v.advisory.Null?
            && Strip(r["package"]) == Strip(ToStr(py, v.name))
            && py.lower(Strip(r["advisory"])) == py.lower(Strip(ToStr(py, v.advisory)))
  {
    AcceptsMeans(py, [r], [v], today);
    hide Accepts, Strip, ToStr;
    assert [r][0] in [r] && [v][0] in [v];
    assert AllSound(py, [r]) by {
      hide SoundRecord;
    }
    hide SoundRecord;
    assert FirstAlike(py, [v], v, 0);
  }
}
