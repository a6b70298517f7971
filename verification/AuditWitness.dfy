/** The gate at concrete inputs: an exceptions file as the repository keeps it, and audits of one
    package. */
module AuditWitness {
  import opened Results
  import opened AuditText
  import opened AuditVulns
  import opened AuditGate
  import opened AuditOrder
  import opened AuditLayout
  import opened AuditMeaning
  import opened AuditPicks
  import AuditExceptions

  // ---------- The exceptions file ----------

  const CAPITALS := "GHSA-4r6h-8v6p-xvw6"
  const SMALL := "ghsa-4r6h-8v6p-xvw6"
  const UNTIL := "2027-01-06"

  function Field(key: string, value: string, style: Style): Line {
    Setting(Pair(key, value, style, "    ", "", " ", ""))
  }

  const PRELUDE := ["version: 1", "exceptions:"]

  /** An exception for a high finding in xlsx; some values are quoted. */
  const EXCEPTION := Block("", Pair("package", "xlsx", Bare, "  ", "", " ", ""), [
    Field("advisory", CAPITALS, Double),
    Field("severity", "high", Bare),
    Field("mitigation", "none", Double),
    Field("expires_on", UNTIL, Double)])

  function ExceptionsFile(): string {
    File(PRELUDE, [EXCEPTION], "\n")
  }

  function FileRecord(): Record {
    map["package" := "xlsx", "advisory" := CAPITALS, "severity" := "high", "mitigation" := "none",
        "expires_on" := UNTIL]
  }

  predicate IsWord(k: string) {
    k != "" && forall i :: 0 <= i < |k| ==> 'a' <= k[i] <= 'z' || k[i] == '_'
  }

  lemma {:induction false} FieldIsPlain(key: string, value: string, style: Style, left: string)
    requires IsWord(key) && key != "version" && key != "exceptions" && Pad(left)
    requires OneLine(value) && (style == Bare ==> IsWord(value))
    ensures Pair(key, value, style, left, "", " ", "").Plain()
  {
    assert ':' !in key && key + "" == key;
    assert style == Bare ==> !IsSpace(value[0]) && !IsSpace(value[|value| - 1]);
  }

  lemma {:induction false} FirstIsPlain()
    ensures EXCEPTION.first.Plain() && Pad(EXCEPTION.dash)
  {
    hide Pair.Plain;
    FieldIsPlain("package", "xlsx", Bare, "  ");
  }

  lemma {:induction false} BareIsPlain()
    ensures PlainLine(Field("severity", "high", Bare)) && PlainLine(Field("mitigation", "none", Double))
  {
    hide Pair.Plain;
    FieldIsPlain("severity", "high", Bare, "    ");
    FieldIsPlain("mitigation", "none", Double, "    ");
  }

  lemma {:induction false} QuotedIsPlain()
    ensures PlainLine(Field("advisory", CAPITALS, Double)) && PlainLine(Field("expires_on", UNTIL, Double))
  {
    hide Pair.Plain;
    FieldIsPlain("advisory", CAPITALS, Double, "    ");
    FieldIsPlain("expires_on", UNTIL, Double, "    ");
  }

  lemma {:induction false} ExceptionIsPlain()
    ensures PlainBlocks([EXCEPTION])
  {
    FirstIsPlain();
    BareIsPlain();
    QuotedIsPlain();
    hide Pair.Plain, PlainLine, Field, Pad;
  }

  lemma {:induction false} PreludeIsOne()
    ensures Prelude(PRELUDE)
  {
    StripTrimmed("version: 1");
    StripTrimmed("exceptions:");
    hide Strip;
  }

  lemma {:induction false} FileParses()
    ensures AuditExceptions.Parse(ExceptionsFile()) == Success([FileRecord()])
  {
    ExceptionIsPlain();
    PreludeIsOne();
    FileDicts();
    assert IsEnding("\n");
    hide *;
    RenderThenParse(PRELUDE, [EXCEPTION], "\n");
  }

  lemma {:induction false} FileDicts()
    ensures Dicts([EXCEPTION]) == [FileRecord()]
  {
    FileDict();
    hide Dict;
    var bs := [EXCEPTION];
    assert bs[1..] == [] && Dicts(bs[1..]) == [];
    assert Dicts(bs) == [FileRecord()] + [];
  }

  lemma {:induction false} FileDict()
    ensures Dict(EXCEPTION) == FileRecord()
  {
    var rest := EXCEPTION.rest;
    var one := map["package" := "xlsx"];
    var two := one["advisory" := CAPITALS];
    var three := two["severity" := "high"];
    var four := three["mitigation" := "none"];
    assert rest[3..][1..] == [];
    assert DictFrom(four, rest[3..]) == FileRecord();
    assert rest[2..][1..] == rest[3..];
    assert DictFrom(three, rest[2..]) == FileRecord();
    assert rest[1..][1..] == rest[2..];
    assert DictFrom(two, rest[1..]) == FileRecord();
    assert DictFrom(one, rest) == FileRecord();
  }

  // ---------- The audits ----------

  /** An audit with these advisories. */
  function Advisories(ms: seq<Member>): Json {
    Obj([Member("advisories", Obj(ms))])
  }

  /** An advisory as npm reports it, with more than one identifier. */
  function Finding(number: string, severity: string, id: string): Member {
    Member(number, Obj([
      Member("module_name", Str("xlsx")), Member("severity", Str(severity)), Member("github_advisory_id", Str(id)),
      Member("url", Str("https://github.com/advisories")), Member("title", Str("Prototype Pollution"))]))
  }

  /** The tuple of such an advisory. */
  function Found(severity: string, id: string): Vuln {
    Vuln(Str("xlsx"), Str(severity), Str(id), Str("Prototype Pollution"))
  }

  /** `py` lower-cases these texts, and 6 January 2027 is a date. */
  predicate Plain(py: Python) {
    && py.lower(CAPITALS) == SMALL && py.lower(SMALL) == SMALL
    && py.lower("high") == "high" && py.lower("critical") == "critical"
    && py.isoDate(UNTIL).Some?
  }

  lemma {:induction false} FindingMembers(number: string, severity: string, id: string)
    ensures var ms := Finding(number, severity, id).value.members;
            && Get(ms, "module_name") == Str("xlsx") && Get(ms, "severity") == Str(severity)
            && Get(ms, "github_advisory_id") == Str(id) && Get(ms, "title") == Str("Prototype Pollution")
  {
    var ms := Finding(number, severity, id).value.members;
    GetAt(ms, 0);
    GetAt(ms, 1);
    GetAt(ms, 2);
    GetAt(ms, 4);
  }

  /** The GitHub identifier is preferred, whatever else the advisory has. */
  lemma {:induction false} FindingTuple(py: Python, number: string, severity: string, id: string)
    requires id != ""
    ensures AdvisoryTuple(py, Finding(number, severity, id).value) == Success(Found(severity, id))
  {
    FindingMembers(number, severity, id);
    hide Get;
  }

  lemma {:induction false} OnlyAdvisories(py: Python, ms: seq<Member>)
    ensures Tuples(py, Advisories(ms)) == AdvisoryTuples(py, ms)
  {
    hide AdvisoryTuples;
    NotThere(Advisories(ms).members, "vulnerabilities");
    assert Get(Advisories(ms).members, "advisories") == Obj(ms);
    var vs := AdvisoryTuples(py, ms);
    assert vs.Success? ==> vs.value + [] == vs.value;
  }

  lemma {:induction false} OneTuple(py: Python, n: string, severity: string, id: string)
    requires id != ""
    ensures Tuples(py, Advisories([Finding(n, severity, id)])) == Success([Found(severity, id)])
  {
    hide AdvisoryTuple, AdvisoryTuples;
    var ms := [Finding(n, severity, id)];
    FindingTuple(py, n, severity, id);
    AdvisoryTuplesAt(py, ms);
    assert AdvisoryTuples(py, ms).value == [Found(severity, id)];
    OnlyAdvisories(py, ms);
  }

  lemma {:induction false} TwoTuples(py: Python, n: string, first: string, m: string, second: string, id: string)
    requires id != ""
    ensures Tuples(py, Advisories([Finding(n, first, id), Finding(m, second, id)])) ==
            Success([Found(first, id), Found(second, id)])
  {
    hide AdvisoryTuple, AdvisoryTuples;
    var ms := [Finding(n, first, id), Finding(m, second, id)];
    FindingTuple(py, n, first, id);
    FindingTuple(py, m, second, id);
    AdvisoryTuplesAt(py, ms);
    assert AdvisoryTuples(py, ms).value == [Found(first, id), Found(second, id)];
    OnlyAdvisories(py, ms);
  }

  // ---------- The verdicts ----------

  /** The verdict on inputs that have been read. */
  lemma {:induction false} ReadInputs(py: Python, file: string, audit: Json, today: int, records: seq<Record>,
                                      vulns: seq<Vuln>)
    requires AuditExceptions.Parse(file) == Success(records) && Tuples(py, audit) == Success(vulns)
    requires forall v :: v in vulns ==> SeverityReadable(py, v)
    ensures !Raises(file, audit) && (Passes(py, file, audit, today) <==> Accepts(py, records, vulns, today))
  {
    RaisesExactly(py, file, audit);
    hide Accepts, Tuples, AuditExceptions.Parse, SeverityReadable, Raises;
  }

  lemma {:induction false} RecordSound(py: Python)
    requires Plain(py)
    ensures SoundRecord(py, FileRecord())
    ensures Strip(FileRecord()["package"]) == "xlsx" && py.lower(Strip(FileRecord()["advisory"])) == SMALL
    ensures py.lower(Strip(FileRecord()["severity"])) == "high"
  {
    StripTrimmed("xlsx");
    StripTrimmed(CAPITALS);
    StripTrimmed("high");
    hide Strip;
  }

  lemma {:induction false} FoundAlarms(py: Python, severity: string, id: string)
    requires Plain(py) && (severity == "high" || severity == "critical") && (id == CAPITALS || id == SMALL)
    ensures Alarming(py, Found(severity, id)) && Severity(py, Found(severity, id)) == severity
    ensures Strip(ToStr(py, Found(severity, id).name)) == "xlsx"
    ensures py.lower(Strip(ToStr(py, Found(severity, id).advisory))) == SMALL
  {
    StripTrimmed("xlsx");
    StripTrimmed(CAPITALS);
    StripTrimmed(SMALL);
    StripTrimmed("high");
    StripTrimmed("critical");
    hide Strip;
  }

  /** The identifier's case does not matter: the exception written in capitals covers the finding whether the
      audit has it in capitals or not. */
  lemma {:induction false} CaseIsIgnored(py: Python, today: int, id: string)
    requires Plain(py) && today <= py.isoDate(UNTIL).value && (id == CAPITALS || id == SMALL)
    ensures Passes(py, ExceptionsFile(), Advisories([Finding("1", "high", id)]), today)
  {
    FileParses();
    RecordSound(py);
    FoundAlarms(py, "high", id);
    assert id != "" && !Found("high", id).advisory.Null?;
    hide *;
    OneTuple(py, "1", "high", id);
    OneForOnePasses(py, ExceptionsFile(), Advisories([Finding("1", "high", id)]), FileRecord(), Found("high", id),
                    today);
  }

  lemma {:induction false} OneForOnePasses(py: Python, file: string, audit: Json, r: Record, v: Vuln, today: int)
    requires AuditExceptions.Parse(file) == Success([r]) && Tuples(py, audit) == Success([v])
    requires SoundRecord(py, r) && Alarming(py, v)
    requires py.isoDate(r["expires_on"]).value >= today && py.lower(Strip(r["severity"])) == Severity(py, v)
    requires !v.advisory.Null? && Strip(r["package"]) == Strip(ToStr(py, v.name))
    requires py.lower(Strip(r["advisory"])) == py.lower(Strip(ToStr(py, v.advisory)))
    ensures Passes(py, file, audit, today)
  {
    FindingMeans(py, v);
    hide Strip, Alarming, SoundRecord, ToStr, Accepts, Passes, Tuples, Severity, AuditExceptions.Parse;
    OneForOne(py, r, v, today);
    ReadInputs(py, file, audit, today, [r], [v]);
  }

  /** The day after the exception has expired the same audit fails. */
  lemma {:induction false} ExpiryIsNoticed(py: Python, today: int, id: string)
    requires Plain(py) && today > py.isoDate(UNTIL).value && (id == CAPITALS || id == SMALL)
    ensures !Passes(py, ExceptionsFile(), Advisories([Finding("1", "high", id)]), today)
  {
    FileParses();
    FoundAlarms(py, "high", id);
    assert id != "" && FileRecord()["expires_on"] == UNTIL;
    hide *;
    OneTuple(py, "1", "high", id);
    ExpiredFails(py, ExceptionsFile(), Advisories([Finding("1", "high", id)]), FileRecord(), Found("high", id),
                 today);
  }

  lemma {:induction false} ExpiredFails(py: Python, file: string, audit: Json, r: Record, v: Vuln, today: int)
    requires AuditExceptions.Parse(file) == Success([r]) && Tuples(py, audit) == Success([v]) && Alarming(py, v)
    requires "expires_on" in r && py.isoDate(r["expires_on"]).Some? && py.isoDate(r["expires_on"]).value < today
    ensures !Passes(py, file, audit, today)
  {
    PassesMeans(py, file, audit, today);
    hide Strip, Alarming, Passes, Tuples, Severity, AuditExceptions.Parse;
    assert [v][0] in [v];
  }

  /** Two tuples of one key as inputs that have been read. */
  lemma {:induction false} TwoOrders(py: Python, file: string, one: Json, other: Json, exc: Record, v: Vuln, w: Vuln,
                                     k: Key, today: int)
    requires AuditExceptions.Parse(file) == Success([exc])
    requires Tuples(py, one) == Success([v, w]) && Tuples(py, other) == Success([w, v])
    requires Keyed(py, exc) == Some(k) && EntryOf(py, exc).expiresOn >= today
    requires CountsAs(py, v, k) && CountsAs(py, w, k)
    requires Sev(py, v) == EntryOf(py, exc).severity != "" && Sev(py, w) != Sev(py, v)
    ensures Passes(py, file, one, today) && !Passes(py, file, other, today) && !Raises(file, other)
  {
    CountsOnlyAs(py, v, k);
    CountsOnlyAs(py, w, k);
    ReadInputs(py, file, one, today, [exc], [v, w]);
    ReadInputs(py, file, other, today, [exc], [w, v]);
    hide *;
    OrderMattersWhenSeveritiesDiffer(py, exc, v, w, k, today);
  }

  lemma {:induction false} FoundCounts(py: Python, severity: string)
    requires Plain(py) && (severity == "high" || severity == "critical")
    ensures CountsAs(py, Found(severity, CAPITALS), ("xlsx", SMALL)) && Sev(py, Found(severity, CAPITALS)) == severity
  {
    FoundAlarms(py, severity, CAPITALS);
    FindingMeans(py, Found(severity, CAPITALS));
    hide Strip, Alarming, Severity, ToStr, Relevant;
  }

  lemma {:induction false} RecordKeyed(py: Python)
    requires Plain(py)
    ensures Keyed(py, FileRecord()) == Some(("xlsx", SMALL))
    ensures EntryOf(py, FileRecord()) == Entry("high", py.isoDate(UNTIL).value)
  {
    RecordSound(py);
    RecordMeans(py, FileRecord());
    hide Strip, SoundRecord, Keyed, EntryOf;
  }

  /** An exception for the high finding: the gate passes when the audit lists the finding as high before
      it lists it as critical, and reports errors on the same audit in the other order. */
  lemma {:induction false} OrderMatters(py: Python, today: int)
    requires Plain(py) && today <= py.isoDate(UNTIL).value
    ensures var high, critical := Finding("1", "high", CAPITALS), Finding("2", "critical", CAPITALS);
            && Passes(py, ExceptionsFile(), Advisories([high, critical]), today)
            && !Passes(py, ExceptionsFile(), Advisories([critical, high]), today)
            && !Raises(ExceptionsFile(), Advisories([critical, high]))
  {
    assert CAPITALS != "";
    hide *;
    FileParses();
    RecordKeyed(py);
    FoundCounts(py, "high");
    FoundCounts(py, "critical");
    TwoTuples(py, "1", "high", "2", "critical", CAPITALS);
    TwoTuples(py, "2", "critical", "1", "high", CAPITALS);
    TwoOrders(py, ExceptionsFile(),
              Advisories([Finding("1", "high", CAPITALS), Finding("2", "critical", CAPITALS)]),
              Advisories([Finding("2", "critical", CAPITALS), Finding("1", "high", CAPITALS)]),
              FileRecord(), Found("high", CAPITALS), Found("critical", CAPITALS), ("xlsx", SMALL), today);
  }
}
