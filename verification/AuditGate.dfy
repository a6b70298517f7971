/** The gate itself: index the exceptions, scan the high and critical vulnerabilities, and decide the
    exit code. */
module AuditGate {
  import opened Results
  import opened Selections
  import opened AuditText
  import AuditExceptions
  import opened AuditVulns
  import opened AuditReading

  type Record = AuditExceptions.Record

  const HIGH_SEVERITIES := {"high", "critical"}
  const REQUIRED_FIELDS := {"package", "advisory", "severity", "mitigation", "expires_on"}

  function LowerTrim(py: Python, s: string): string {
    py.lower(Strip(s))
  }

  /** A truthy severity that is not a string has no `strip`. */
  function NormalizeSeverity(py: Python, severity: Json): Result<string, Raised> {
    if !Truthy(severity) then Success(LowerTrim(py, ""))
    else if severity.Str? then Success(LowerTrim(py, severity.s))
    else Failure(AttributeError)
  }

  function NormalizePackage(py: Python, name: Json): string {
    if name.Null? then "" else Strip(ToStr(py, name))
  }

  function NormalizeAdvisory(py: Python, advisory: Json): string {
    if advisory.Null? then "" else LowerTrim(py, ToStr(py, advisory))
  }

  /** A (package, advisory) pair after normalisation. */
  type Key = (string, string)

  // ---------- Exceptions ----------

  predicate HasFields(r: Record) {
    forall f :: f in REQUIRED_FIELDS ==> f in r && r[f] != ""
  }

  function KeyOf(py: Python, r: Record): Key
    requires HasFields(r)
  {
    (NormalizePackage(py, Str(r["package"])), NormalizeAdvisory(py, Str(r["advisory"])))
  }

  /** All required fields present, a valid date, and a package and advisory that are not blank. */
  predicate WellFormed(py: Python, r: Record) {
    && HasFields(r)
    && py.isoDate(r["expires_on"]).Some?
    && KeyOf(py, r).0 != "" && KeyOf(py, r).1 != ""
  }

  /** The key of a well-formed exception. */
  function Keyed(py: Python, r: Record): Option<Key> {
    if WellFormed(py, r) then Some(KeyOf(py, r)) else None
  }

  datatype Entry = Entry(severity: string, expiresOn: int)

  function EntryOf(py: Python, r: Record): Entry
    requires Keyed(py, r).Some?
  {
    Entry(LowerTrim(py, r["severity"]), py.isoDate(r["expires_on"]).value)
  }

  /** The first well-formed exception with key `k`. */
  function ExceptionFor(py: Python, records: seq<Record>, k: Key): (r: Option<Record>)
    ensures r.None? ==> forall i :: 0 <= i < |records| ==> Keyed(py, records[i]) != Some(k)
    ensures r.Some? ==> Keyed(py, r.value) == Some(k) && r.value in records
  {
    hide Keyed;
    FirstWhere(records, r => Keyed(py, r) == Some(k))
  }

  predicate AllWellFormed(py: Python, records: seq<Record>) {
    forall i :: 0 <= i < |records| ==> Keyed(py, records[i]).Some?
  }

  predicate DistinctKeys(py: Python, records: seq<Record>) {
    forall i, j :: 0 <= i < j < |records| && Keyed(py, records[i]).Some? ==>
      Keyed(py, records[i]) != Keyed(py, records[j])
  }

  datatype Complaint =
    | MissingFields(fields: set<string>)
    | InvalidDate
    | BlankKey
    | Duplicate(key: Key)

  /** The three checks made on one record before its key is looked up. */
  method CheckException(py: Python, exc: Record) returns (res: Result<(Key, Entry), Complaint>)
    ensures res.Success? <==> Keyed(py, exc).Some?
    ensures res.Success? ==> res.value == (Keyed(py, exc).value, EntryOf(py, exc))
  {
    var missing := set f | f in REQUIRED_FIELDS && (f !in exc || exc[f] == "");
    if missing != {} {
      var f :| f in missing;
      return Failure(MissingFields(missing));
    }
    forall f | f in REQUIRED_FIELDS
      ensures f in exc && exc[f] != ""
    {
      assert f !in missing;
    }
    var date := py.isoDate(exc["expires_on"]);
    if date.None? {
      return Failure(InvalidDate);
    }
    var key := KeyOf(py, exc);
    if key.0 == "" || key.1 == "" {
      return Failure(BlankKey);
    }
    return Success((key, Entry(LowerTrim(py, exc["severity"]), date.value)));
  }

  /** The index holds, under each key, the first well-formed exception with that key. */
  ghost predicate Indexes(py: Python, records: seq<Record>, index: map<Key, Entry>) {
    && (forall k :: k in index <==> ExceptionFor(py, records, k).Some?)
    && (forall k :: k in index ==> index[k] == EntryOf(py, ExceptionFor(py, records, k).value))
  }

  lemma NothingIndexed(py: Python)
    ensures Indexes(py, [], map[]) && AllWellFormed(py, []) && DistinctKeys(py, [])
  {
  }

  lemma IndexLookup(py: Python, records: seq<Record>, index: map<Key, Entry>, k: Key)
    requires Indexes(py, records, index)
    ensures k in index <==> ExceptionFor(py, records, k).Some?
  {
    hide ExceptionFor;
  }

  lemma IndexStep(py: Python, records: seq<Record>, index: map<Key, Entry>)
    requires records != []
    requires Indexes(py, records[..|records| - 1], index)
    ensures var last := records[|records| - 1];
            Indexes(py, records,
                    if Keyed(py, last).Some? && Keyed(py, last).value !in index
                    then index[Keyed(py, last).value := EntryOf(py, last)] else index)
  {
    hide Keyed, EntryOf;
  }

  /** Indexes the exceptions by key; the first well-formed one wins and every other record is
      complained about. */
  method BuildIndex(py: Python, records: seq<Record>)
    returns (index: map<Key, Entry>, errors: seq<Complaint>)
    ensures Indexes(py, records, index)
    ensures |index| + |errors| == |records|
    ensures errors == [] <==> AllWellFormed(py, records) && DistinctKeys(py, records)
  {
    hide Keyed, EntryOf, AllWellFormed, DistinctKeys, ExceptionFor, Indexes;
    index, errors := map[], [];
    NothingIndexed(py);
    assert records[..0] == [];
    for n := 0 to |records|
      invariant Indexes(py, records[..n], index)
      invariant |index| + |errors| == n
      invariant errors == [] <==> AllWellFormed(py, records[..n]) && DistinctKeys(py, records[..n])
    {
      var checked := CheckException(py, records[n]);
      SoundStep(py, records[..n + 1]);
      assert records[..n + 1][..n] == records[..n];
      IndexStep(py, records[..n + 1], index);
      match checked {
        case Failure(complaint) =>
          errors := errors + [complaint];
        case Success((key, entry)) =>
          IndexLookup(py, records[..n], index, key);
          if key in index {
            errors := errors + [Duplicate(key)];
          } else {
            index := index[key := entry];
          }
      }
    }
    assert records[..|records|] == records;
  }

  /** One more record keeps the list sound exactly when it is well formed and its key is new. */
  lemma SoundStep(py: Python, records: seq<Record>)
    requires records != []
    ensures var last := |records| - 1;
            AllWellFormed(py, records) && DistinctKeys(py, records) <==>
            && AllWellFormed(py, records[..last]) && DistinctKeys(py, records[..last])
            && Keyed(py, records[last]).Some?
            && ExceptionFor(py, records[..last], Keyed(py, records[last]).value).None?
  {
    hide Keyed;
    var last := |records| - 1;
    var before := records[..last];
    assert forall i :: 0 <= i < last ==> before[i] == records[i];
    if Keyed(py, records[last]).Some? {
      var k := Keyed(py, records[last]).value;
      assert ExceptionFor(py, before, k).Some? <==>
             exists i :: 0 <= i < last && Keyed(py, before[i]) == Some(k);
    }
  }

  // ---------- Vulnerabilities ----------

  predicate SeverityReadable(py: Python, v: Vuln) {
    NormalizeSeverity(py, v.severity).Success?
  }

  function Sev(py: Python, v: Vuln): string
    requires SeverityReadable(py, v)
  {
    NormalizeSeverity(py, v.severity).value
  }

  /** High or critical, and named. */
  predicate Relevant(py: Python, v: Vuln) {
    SeverityReadable(py, v) && Sev(py, v) in HIGH_SEVERITIES && Truthy(v.name)
  }

  function VulnKey(py: Python, v: Vuln): Key {
    (NormalizePackage(py, v.name), NormalizeAdvisory(py, v.advisory))
  }

  /** Relevant and identified: the tuples that need an exception. */
  predicate Counts(py: Python, v: Vuln) {
    Relevant(py, v) && VulnKey(py, v).1 != ""
  }

  predicate CountsAs(py: Python, v: Vuln, k: Key) {
    Counts(py, v) && VulnKey(py, v) == k
  }

  predicate Counted(py: Python, vulns: seq<Vuln>, k: Key) {
    exists i :: 0 <= i < |vulns| && CountsAs(py, vulns[i], k)
  }

  /** Severity of the first tuple counted under `k`. */
  function FirstSev(py: Python, vulns: seq<Vuln>, k: Key): (s: Option<string>)
    ensures s.Some? <==> Counted(py, vulns, k)
    ensures s.Some? ==> exists i :: 0 <= i < |vulns| && CountsAs(py, vulns[i], k) && Sev(py, vulns[i]) == s.value
  {
    if vulns == [] then None
    else
      var last := |vulns| - 1;
      var earlier := FirstSev(py, vulns[..last], k);
      if earlier.Some? then earlier
      else if CountsAs(py, vulns[last], k) then Some(Sev(py, vulns[last]))
      else None
  }

  predicate MissingKey(py: Python, index: map<Key, Entry>, vulns: seq<Vuln>, k: Key) {
    Counted(py, vulns, k) && k !in index
  }

  predicate ExpiredKey(py: Python, index: map<Key, Entry>, vulns: seq<Vuln>, today: int, k: Key) {
    Counted(py, vulns, k) && k in index && index[k].expiresOn < today
  }

  predicate MismatchedKey(py: Python, index: map<Key, Entry>, vulns: seq<Vuln>, k: Key) {
    && Counted(py, vulns, k) && k in index
    && index[k].severity != "" && index[k].severity != FirstSev(py, vulns, k).value
  }

  predicate Unidentified(py: Python, v: Vuln) {
    Relevant(py, v) && VulnKey(py, v).1 == ""
  }

  datatype Report = Report(
    unidentified: seq<Vuln>,
    missing: seq<Key>,
    mismatched: seq<Key>,
    expired: seq<Key>)

  lemma Empty<T>(s: seq<T>)
    ensures s == [] <==> forall x :: x in s ==> false
  {
    if s != [] {
      assert s[0] in s;
    }
  }

  /** A report that lists exactly the offending keys, each once. */
  ghost predicate Exact(py: Python, index: map<Key, Entry>, vulns: seq<Vuln>, today: int, r: Report) {
    && (forall v :: v in r.unidentified <==> v in vulns && Unidentified(py, v))
    && (forall k :: k in r.missing <==> MissingKey(py, index, vulns, k)) && NoDup(r.missing)
    && (forall k :: k in r.mismatched <==> MismatchedKey(py, index, vulns, k)) && NoDup(r.mismatched)
    && (forall k :: k in r.expired <==> ExpiredKey(py, index, vulns, today, k)) && NoDup(r.expired)
  }

  predicate AllReadable(py: Python, vulns: seq<Vuln>) {
    forall i :: 0 <= i < |vulns| ==> SeverityReadable(py, vulns[i])
  }

  lemma CountedStep(py: Python, vulns: seq<Vuln>)
    requires vulns != []
    ensures var last := |vulns| - 1;
            forall k :: Counted(py, vulns, k) <==>
              Counted(py, vulns[..last], k) || CountsAs(py, vulns[last], k)
  {
    hide CountsAs;
    var last := |vulns| - 1;
    forall k
      ensures Counted(py, vulns, k) <==> Counted(py, vulns[..last], k) || CountsAs(py, vulns[last], k)
    {
      if i :| 0 <= i < |vulns| && CountsAs(py, vulns[i], k) {
        assert i < last ==> vulns[..last][i] == vulns[i];
      }
      if i :| 0 <= i < last && CountsAs(py, vulns[..last][i], k) {
        assert vulns[i] == vulns[..last][i];
      }
    }
  }

  /** The offending keys are the same for two lists of tuples. */
  ghost predicate SameKeys(py: Python, index: map<Key, Entry>, a: seq<Vuln>, b: seq<Vuln>, today: int,
                           except: set<Key>)
  {
    forall j :: j !in except ==>
      && (MissingKey(py, index, a, j) <==> MissingKey(py, index, b, j))
      && (MismatchedKey(py, index, a, j) <==> MismatchedKey(py, index, b, j))
      && (ExpiredKey(py, index, a, today, j) <==> ExpiredKey(py, index, b, today, j))
  }

  lemma OldKeys(py: Python, index: map<Key, Entry>, vulns: seq<Vuln>, today: int)
    requires vulns != []
    requires var last := |vulns| - 1;
             Counts(py, vulns[last]) ==> Counted(py, vulns[..last], VulnKey(py, vulns[last]))
    ensures SameKeys(py, index, vulns[..|vulns| - 1], vulns, today, {})
  {
    CountedStep(py, vulns);
    FirstSevStep(py, vulns);
    hide Counted, FirstSev, Counts, VulnKey;
  }

  lemma LastIn(vulns: seq<Vuln>)
    requires vulns != []
    ensures forall v :: v in vulns <==> v in vulns[..|vulns| - 1] || v == vulns[|vulns| - 1]
  {
    assert vulns == vulns[..|vulns| - 1] + [vulns[|vulns| - 1]];
  }

  /** A tuple that counts under no new key leaves every list as it was. */
  lemma {:induction false} ExactSkip(py: Python, index: map<Key, Entry>, vulns: seq<Vuln>, today: int, r: Report)
    requires vulns != []
    requires var last := |vulns| - 1;
             && Exact(py, index, vulns[..last], today, r)
             && !Unidentified(py, vulns[last])
             && (Counts(py, vulns[last]) ==> Counted(py, vulns[..last], VulnKey(py, vulns[last])))
    ensures Exact(py, index, vulns, today, r)
  {
    OldKeys(py, index, vulns, today);
    hide Counted, Unidentified, Counts, MissingKey, MismatchedKey, ExpiredKey;
    LastIn(vulns);
  }

  lemma ExactUnidentified(py: Python, index: map<Key, Entry>, vulns: seq<Vuln>, today: int, r: Report)
    requires vulns != []
    requires var last := |vulns| - 1;
             Exact(py, index, vulns[..last], today, r) && Unidentified(py, vulns[last])
    ensures Exact(py, index, vulns, today, r.(unidentified := r.unidentified + [vulns[|vulns| - 1]]))
  {
    CountedStep(py, vulns);
    var last := |vulns| - 1;
    assert vulns == vulns[..last] + [vulns[last]];
  }

  /** The lists after the first tuple counted under a key. */
  function Extend(r: Report, index: map<Key, Entry>, k: Key, sev: string, today: int): Report {
    if k !in index then r.(missing := r.missing + [k])
    else
      r.(mismatched := if index[k].severity != "" && index[k].severity != sev then r.mismatched + [k] else r.mismatched,
         expired := if index[k].expiresOn < today then r.expired + [k] else r.expired)
  }

  /** The facts about a tuple counted under a key for the first time. */
  lemma NewKey(py: Python, vulns: seq<Vuln>, k: Key)
    requires vulns != [] && CountsAs(py, vulns[|vulns| - 1], k) && !Counted(py, vulns[..|vulns| - 1], k)
    ensures var last := |vulns| - 1;
            && !Unidentified(py, vulns[last])
            && (forall j :: Counted(py, vulns, j) <==> Counted(py, vulns[..last], j) || j == k)
            && (forall j :: Counted(py, vulns[..last], j) ==> FirstSev(py, vulns, j) == FirstSev(py, vulns[..last], j))
            && FirstSev(py, vulns, k) == Some(Sev(py, vulns[last]))
  {
    CountedStep(py, vulns);
    FirstSevStep(py, vulns);
    hide NormalizeSeverity, NormalizeAdvisory, NormalizePackage;
  }

  lemma {:induction false} ExactFirst(py: Python, index: map<Key, Entry>, vulns: seq<Vuln>, today: int, r: Report,
                                      k: Key)
    requires vulns != []
    requires var last := |vulns| - 1;
             && Exact(py, index, vulns[..last], today, r)
             && CountsAs(py, vulns[last], k) && !Counted(py, vulns[..last], k)
    ensures Exact(py, index, vulns, today, Extend(r, index, k, Sev(py, vulns[|vulns| - 1]), today))
  {
    NewKey(py, vulns, k);
    ExactGrows(py, index, vulns, today, r, k, Sev(py, vulns[|vulns| - 1]));
  }

  lemma {:induction false} ExactGrows(py: Python, index: map<Key, Entry>, vulns: seq<Vuln>, today: int, r: Report,
                                      k: Key, sev: string)
    requires vulns != []
    requires var before, v := vulns[..|vulns| - 1], vulns[|vulns| - 1];
             && Exact(py, index, before, today, r) && !Unidentified(py, v)
             && !Counted(py, before, k) && FirstSev(py, vulns, k) == Some(sev)
             && (forall j :: Counted(py, vulns, j) <==> Counted(py, before, j) || j == k)
             && (forall j :: Counted(py, before, j) ==> FirstSev(py, vulns, j) == FirstSev(py, before, j))
    ensures Exact(py, index, vulns, today, Extend(r, index, k, sev, today))
  {
    hide Counted, FirstSev, Unidentified, MissingKey, MismatchedKey, ExpiredKey, NoDup;
    var before := vulns[..|vulns| - 1];
    NewKeyOnly(py, index, before, vulns, today, k, sev);
    UnidentifiedStay(py, vulns, r.unidentified);
    var r' := Extend(r, index, k, sev, today);
    hide SameKeys, NoDup;
    MissingGrows(py, index, before, vulns, today, k, r.missing, r'.missing);
    MismatchedGrows(py, index, before, vulns, today, k, r.mismatched, r'.mismatched);
    ExpiredGrows(py, index, before, vulns, today, k, r.expired, r'.expired);
  }

  lemma {:induction false} UnidentifiedStay(py: Python, vulns: seq<Vuln>, found: seq<Vuln>)
    requires vulns != [] && !Unidentified(py, vulns[|vulns| - 1])
    requires forall v :: v in found <==> v in vulns[..|vulns| - 1] && Unidentified(py, v)
    ensures forall v :: v in found <==> v in vulns && Unidentified(py, v)
  {
    hide Unidentified;
    LastIn(vulns);
  }

  lemma {:induction false} MissingGrows(py: Python, index: map<Key, Entry>, before: seq<Vuln>, vulns: seq<Vuln>,
                                        today: int, k: Key, s: seq<Key>, s': seq<Key>)
    requires SameKeys(py, index, before, vulns, today, {k}) && !MissingKey(py, index, before, k)
    requires NoDup(s) && forall j :: j in s <==> MissingKey(py, index, before, j)
    requires s' == if MissingKey(py, index, vulns, k) then s + [k] else s
    ensures NoDup(s') && forall j :: j in s' <==> MissingKey(py, index, vulns, j)
  {
    hide MissingKey, MismatchedKey, ExpiredKey;
    ListGrows(s, s', j => MissingKey(py, index, before, j), j => MissingKey(py, index, vulns, j), k);
  }

  lemma {:induction false} MismatchedGrows(py: Python, index: map<Key, Entry>, before: seq<Vuln>, vulns: seq<Vuln>,
                                           today: int, k: Key, s: seq<Key>, s': seq<Key>)
    requires SameKeys(py, index, before, vulns, today, {k}) && !MismatchedKey(py, index, before, k)
    requires NoDup(s) && forall j :: j in s <==> MismatchedKey(py, index, before, j)
    requires s' == if MismatchedKey(py, index, vulns, k) then s + [k] else s
    ensures NoDup(s') && forall j :: j in s' <==> MismatchedKey(py, index, vulns, j)
  {
    hide MissingKey, MismatchedKey, ExpiredKey;
    ListGrows(s, s', j => MismatchedKey(py, index, before, j), j => MismatchedKey(py, index, vulns, j), k);
  }

  lemma {:induction false} ExpiredGrows(py: Python, index: map<Key, Entry>, before: seq<Vuln>, vulns: seq<Vuln>,
                                        today: int, k: Key, s: seq<Key>, s': seq<Key>)
    requires SameKeys(py, index, before, vulns, today, {k}) && !ExpiredKey(py, index, before, today, k)
    requires NoDup(s) && forall j :: j in s <==> ExpiredKey(py, index, before, today, j)
    requires s' == if ExpiredKey(py, index, vulns, today, k) then s + [k] else s
    ensures NoDup(s') && forall j :: j in s' <==> ExpiredKey(py, index, vulns, today, j)
  {
    hide MissingKey, MismatchedKey, ExpiredKey;
    ListGrows(s, s', j => ExpiredKey(py, index, before, today, j), j => ExpiredKey(py, index, vulns, today, j), k);
  }

  /** Only the new key changes sides, by its own tuple. */
  lemma {:induction false} NewKeyOnly(py: Python, index: map<Key, Entry>, before: seq<Vuln>, vulns: seq<Vuln>,
                                      today: int, k: Key, sev: string)
    requires !Counted(py, before, k) && FirstSev(py, vulns, k) == Some(sev)
    requires forall j :: Counted(py, vulns, j) <==> Counted(py, before, j) || j == k
    requires forall j :: Counted(py, before, j) ==> FirstSev(py, vulns, j) == FirstSev(py, before, j)
    ensures SameKeys(py, index, before, vulns, today, {k})
    ensures !MissingKey(py, index, before, k) && !MismatchedKey(py, index, before, k)
    ensures !ExpiredKey(py, index, before, today, k)
    ensures MissingKey(py, index, vulns, k) <==> k !in index
    ensures MismatchedKey(py, index, vulns, k) <==>
              k in index && index[k].severity != "" && index[k].severity != sev
    ensures ExpiredKey(py, index, vulns, today, k) <==> k in index && index[k].expiresOn < today
  {
    hide Counted, FirstSev;
    NewKeySides(py, index, vulns, today, k, sev);
    UncountedKey(py, index, before, today, k);
    hide MissingKey, MismatchedKey, ExpiredKey;
    forall j | j != k
      ensures && (MissingKey(py, index, before, j) <==> MissingKey(py, index, vulns, j))
              && (MismatchedKey(py, index, before, j) <==> MismatchedKey(py, index, vulns, j))
              && (ExpiredKey(py, index, before, today, j) <==> ExpiredKey(py, index, vulns, today, j))
    {
      OldKeySides(py, index, before, vulns, today, j);
    }
  }

  lemma {:induction false} NewKeySides(py: Python, index: map<Key, Entry>, vulns: seq<Vuln>, today: int, k: Key,
                                       sev: string)
    requires FirstSev(py, vulns, k) == Some(sev)
    ensures MissingKey(py, index, vulns, k) <==> k !in index
    ensures MismatchedKey(py, index, vulns, k) <==>
              k in index && index[k].severity != "" && index[k].severity != sev
    ensures ExpiredKey(py, index, vulns, today, k) <==> k in index && index[k].expiresOn < today
  {
    hide Counted, FirstSev;
  }

  lemma {:induction false} UncountedKey(py: Python, index: map<Key, Entry>, vulns: seq<Vuln>, today: int, k: Key)
    requires !Counted(py, vulns, k)
    ensures !MissingKey(py, index, vulns, k) && !MismatchedKey(py, index, vulns, k)
    ensures !ExpiredKey(py, index, vulns, today, k)
  {
    hide Counted, FirstSev;
  }

  lemma {:induction false} OldKeySides(py: Python, index: map<Key, Entry>, a: seq<Vuln>, b: seq<Vuln>, today: int,
                                       j: Key)
    requires Counted(py, a, j) <==> Counted(py, b, j)
    requires Counted(py, a, j) ==> FirstSev(py, a, j) == FirstSev(py, b, j)
    ensures && (MissingKey(py, index, a, j) <==> MissingKey(py, index, b, j))
            && (MismatchedKey(py, index, a, j) <==> MismatchedKey(py, index, b, j))
            && (ExpiredKey(py, index, a, today, j) <==> ExpiredKey(py, index, b, today, j))
  {
    hide Counted, FirstSev;
  }

  /** A list of the keys with one property becomes the list of those with another that differs at most
      at the new key `k`. */
  lemma {:induction false} ListGrows<T(!new)>(s: seq<T>, s': seq<T>, was: T -> bool, now: T -> bool, k: T)
    requires NoDup(s) && (forall j :: j in s <==> was(j)) && !was(k)
    requires forall j :: j != k ==> (now(j) <==> was(j))
    requires s' == if now(k) then s + [k] else s
    ensures NoDup(s') && forall j :: j in s' <==> now(j)
  {
  }

  lemma FirstSevStep(py: Python, vulns: seq<Vuln>)
    requires vulns != []
    ensures var before, v := vulns[..|vulns| - 1], vulns[|vulns| - 1];
            && (forall j :: Counted(py, before, j) ==> FirstSev(py, vulns, j) == FirstSev(py, before, j))
            && (forall j :: !Counted(py, before, j) && CountsAs(py, v, j) ==>
                  FirstSev(py, vulns, j) == Some(Sev(py, v)))
  {
    hide Counts, VulnKey, Counted, NormalizeSeverity;
  }

  lemma ExactNothing(py: Python, index: map<Key, Entry>, today: int)
    ensures Exact(py, index, [], today, Report([], [], [], []))
  {
  }

  /** The scan: one pass that remembers the keys it has seen. */
  method Scan(py: Python, index: map<Key, Entry>, vulns: seq<Vuln>, today: int)
    returns (res: Result<Report, Raised>)
    ensures res.Success? <==> AllReadable(py, vulns)
    ensures res.Success? ==> Exact(py, index, vulns, today, res.value)
  {
    hide Exact, FirstSev, NormalizeAdvisory, NormalizePackage, LowerTrim;
    var r := Report([], [], [], []);
    ExactNothing(py, index, today);
    var seen: set<Key> := {};
    for n := 0 to |vulns|
      invariant AllReadable(py, vulns[..n])
      invariant forall k :: k in seen <==> Counted(py, vulns[..n], k)
      invariant Exact(py, index, vulns[..n], today, r)
    {
      var v := vulns[n];
      ghost var upTo := vulns[..n + 1];
      assert upTo[..n] == vulns[..n] && upTo[n] == v;
      CountedStep(py, upTo);
      var sev :- NormalizeSeverity(py, v.severity);
      if sev !in HIGH_SEVERITIES || !Truthy(v.name) {
        ExactSkip(py, index, upTo, today, r);
        continue;
      }
      var advisory := NormalizeAdvisory(py, v.advisory);
      if advisory == "" {
        ExactUnidentified(py, index, upTo, today, r);
        r := r.(unidentified := r.unidentified + [v]);
        continue;
      }
      var key := (NormalizePackage(py, v.name), advisory);
      if key in seen {
        ExactSkip(py, index, upTo, today, r);
        continue;
      }
      ExactFirst(py, index, upTo, today, r, key);
      seen := seen + {key};
      if key !in index {
        r := r.(missing := r.missing + [key]);
        continue;
      }
      var exc := index[key];
      if exc.severity != "" && exc.severity != sev {
        r := r.(mismatched := r.mismatched + [key]);
      }
      if exc.expiresOn < today {
        r := r.(expired := r.expired + [key]);
      }
    }
    assert vulns[..|vulns|] == vulns;
    return Success(r);
  }

  // ---------- The verdict ----------

  /** `r` excuses the tuples counted under its key, the first of which has severity `sev`. */
  predicate Covers(py: Python, r: Record, k: Key, sev: string, today: int) {
    && Keyed(py, r) == Some(k)
    && EntryOf(py, r).expiresOn >= today
    && (EntryOf(py, r).severity == "" || EntryOf(py, r).severity == sev)
  }

  predicate CoveredBy(py: Python, records: seq<Record>, vulns: seq<Vuln>, today: int, k: Key)
    requires Counted(py, vulns, k)
  {
    exists i :: 0 <= i < |records| && Covers(py, records[i], k, FirstSev(py, vulns, k).value, today)
  }

  /** What it takes to pass, with no mention of an index, a scan or an order of evaluation. */
  ghost predicate Accepts(py: Python, records: seq<Record>, vulns: seq<Vuln>, today: int) {
    && AllWellFormed(py, records) && DistinctKeys(py, records)
    && (forall i :: 0 <= i < |vulns| ==> !Unidentified(py, vulns[i]))
    && (forall k :: Counted(py, vulns, k) ==> CoveredBy(py, records, vulns, today, k))
  }

  datatype Outcome = Exit(code: int) | Uncaught

  /** Some statement of `main` raises an exception nobody catches: an item line of the exceptions file
      has no colon, the audit has the wrong shape somewhere, or a severity is not text. */
  ghost predicate Raises(exceptions: string, audit: Json) {
    || AuditExceptions.HasBadItem(Lines(exceptions))
    || !AuditReads(audit)
    || !SeveritiesAreText(audit)
  }

  /** Exit code 0: the inputs are read to the end, severities included, and the records accept the
      tuples. */
  ghost predicate Passes(py: Python, exceptions: string, audit: Json, today: int) {
    var records, vulns := AuditExceptions.Parse(exceptions), Tuples(py, audit);
    && records.Success? && vulns.Success? && AllReadable(py, vulns.value)
    && Accepts(py, records.value, vulns.value, today)
  }

  /** Where the exceptions come from. */
  lemma {:induction false} RaisesExactly(py: Python, exceptions: string, audit: Json)
    ensures !Raises(exceptions, audit) <==>
            && AuditExceptions.Parse(exceptions).Success? && Tuples(py, audit).Success?
            && AllReadable(py, Tuples(py, audit).value)
  {
    hide Tuples, AuditReads, SeveritiesAreText;
    AuditExceptions.ParseCountsItems(exceptions);
    AuditReadableExactly(py, audit);
    if AuditReads(audit) {
      SeveritiesReachGate(py, audit);
      var vs := Tuples(py, audit).value;
      assert forall i :: 0 <= i < |vs| ==> (SeverityReadable(py, vs[i]) <==> IsText(vs[i].severity));
    }
  }

  /** A run that passes raises nothing. */
  lemma {:induction false} PassesExactly(py: Python, exceptions: string, audit: Json, today: int)
    ensures Passes(py, exceptions, audit, today) <==>
            && !Raises(exceptions, audit)
            && AuditExceptions.Parse(exceptions).Success? && Tuples(py, audit).Success?
            && Accepts(py, AuditExceptions.Parse(exceptions).value, Tuples(py, audit).value, today)
  {
    RaisesExactly(py, exceptions, audit);
    hide Raises, Tuples, Accepts, AllReadable, AuditExceptions.Parse;
  }

  lemma VerdictFromReport(py: Python, records: seq<Record>, vulns: seq<Vuln>, today: int,
                          index: map<Key, Entry>, r: Report)
    requires Indexes(py, records, index)
    requires AllWellFormed(py, records) && DistinctKeys(py, records)
    requires Exact(py, index, vulns, today, r)
    ensures r == Report([], [], [], []) <==> Accepts(py, records, vulns, today)
  {
    hide Keyed, EntryOf, Counted, Unidentified, FirstSev;
    Empty(r.unidentified);
    Empty(r.missing);
    Empty(r.mismatched);
    Empty(r.expired);
    forall k | Counted(py, vulns, k)
      ensures CoveredBy(py, records, vulns, today, k) <==>
              !MissingKey(py, index, vulns, k) && !ExpiredKey(py, index, vulns, today, k) &&
              !MismatchedKey(py, index, vulns, k)
    {
      CoverageFromIndex(py, records, vulns, today, index, k);
    }
    assert (forall v :: v !in r.unidentified) <==>
           (forall i :: 0 <= i < |vulns| ==> !Unidentified(py, vulns[i]));
  }

  lemma CoverageFromIndex(py: Python, records: seq<Record>, vulns: seq<Vuln>, today: int,
                          index: map<Key, Entry>, k: Key)
    requires Indexes(py, records, index) && DistinctKeys(py, records) && Counted(py, vulns, k)
    ensures CoveredBy(py, records, vulns, today, k) <==>
            !MissingKey(py, index, vulns, k) && !ExpiredKey(py, index, vulns, today, k) &&
            !MismatchedKey(py, index, vulns, k)
  {
    hide Keyed, EntryOf, Counted;
    var sev := FirstSev(py, vulns, k).value;
    if i :| 0 <= i < |records| && Covers(py, records[i], k, sev, today) {
      SoleException(py, records, k, i);
    }
    if k in index {
      var exc := ExceptionFor(py, records, k).value;
      var j :| 0 <= j < |records| && records[j] == exc;
      assert Keyed(py, records[j]) == Some(k);
    }
  }

  /** With distinct keys, any exception for `k` is the one the index holds. */
  lemma SoleException(py: Python, records: seq<Record>, k: Key, i: nat)
    requires DistinctKeys(py, records)
    requires i < |records| && Keyed(py, records[i]) == Some(k)
    ensures ExceptionFor(py, records, k) == Some(records[i])
  {
    var exc := ExceptionFor(py, records, k).value;
    var j :| 0 <= j < |records| && records[j] == exc;
    hide Keyed;
    assert Keyed(py, records[i]) == Keyed(py, records[j]);
  }

  /** `main`: exit code 0 exactly when nothing raises and the exceptions cover the audit. */
  method Decide(py: Python, audit: Json, exceptions: string, today: int) returns (out: Outcome)
    ensures out == Uncaught <==> Raises(exceptions, audit)
    ensures out == Exit(0) <==> Passes(py, exceptions, audit, today)
    ensures out in {Uncaught, Exit(0), Exit(1)}
  {
    RaisesExactly(py, exceptions, audit);
    hide Raises, Tuples, Exact, Indexes, AllWellFormed, DistinctKeys, AllReadable, AuditExceptions.Parse;
    var parsed := AuditExceptions.ParseExceptions(exceptions);
    if parsed.Failure? {
      return Uncaught;
    }
    var records := parsed.value;
    var index, errors := BuildIndex(py, records);
    var tuples := IterVulns(py, audit);
    if tuples.Failure? {
      return Uncaught;
    }
    var scan := Scan(py, index, tuples.value, today);
    if scan.Failure? {
      return Uncaught;
    }
    var r := scan.value;
    if errors == [] {
      VerdictFromReport(py, records, tuples.value, today, index, r);
    }
    if errors != [] || r.unidentified != [] || r.mismatched != [] || r.missing != [] || r.expired != [] {
      return Exit(1);
    }
    return Exit(0);
  }
}
