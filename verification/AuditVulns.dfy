/** Reading vulnerability tuples out of `pnpm audit` JSON, in either of its two layouts. */
module AuditVulns {
  import opened Results

  /** A decoded JSON document. A number keeps its printed form and whether it equals zero. */
  datatype Json =
    | Null
    | Bool(b: bool)
    | Number(text: string, zero: bool)
    | Str(s: string)
    | List(items: seq<Json>)
    | Obj(members: seq<Member>)

  datatype Member = Member(key: string, value: Json)

  /** The parts of the Python runtime the gate calls and this model leaves open: lower-casing, the
      printed form of lists and objects, and date.fromisoformat (None is its ValueError). */
  datatype Python = Python(
    lower: string -> string,
    repr: Json -> string,
    isoDate: string -> Option<int>)

  datatype Raised = AttributeError | TypeError | KeyError

  predicate Truthy(j: Json) {
    match j
    case Null => false
    case Bool(b) => b
    case Number(_, zero) => !zero
    case Str(s) => s != ""
    case List(items) => items != []
    case Obj(members) => members != []
  }

  /** Python's `a or b`. */
  function Or(a: Json, b: Json): Json {
    if Truthy(a) then a else b
  }

  /** `dict.get(key)`. */
  function Get(members: seq<Member>, key: string): Json {
    if members == [] then Null
    else if members[0].key == key then members[0].value
    else Get(members[1..], key)
  }

  /** `str(x)`. */
  function ToStr(py: Python, j: Json): string {
    match j
    case Null => "None"
    case Bool(b) => if b then "True" else "False"
    case Number(text, _) => text
    case Str(s) => s
    case _ => py.repr(j)
  }

  /** `(advisory.get("cves") or [None])[0]`: an object or a number here cannot be indexed by 0. */
  function FirstCve(members: seq<Member>): Result<Json, Raised> {
    var cves := Get(members, "cves");
    if !Truthy(cves) then Success(Null)
    else
      match cves
      case List(items) => Success(items[0])
      case Str(s) => Success(Str([s[0]]))
      case Obj(_) => Failure(KeyError)
      case _ => Failure(TypeError)
  }

  function PickAdvisoryId(py: Python, members: seq<Member>): Result<Json, Raised> {
    var stable := Or(Get(members, "github_advisory_id"), Get(members, "url"));
    if Truthy(stable) then Success(stable)
    else
      var cve :- FirstCve(members);
      var id := Get(members, "id");
      Success(Or(cve,
              Or(if id.Null? then Null else Str(ToStr(py, id)),
              Or(Get(members, "title"), Or(Get(members, "advisory"), Get(members, "overview"))))))
  }

  datatype Vuln = Vuln(name: Json, severity: Json, advisory: Json, title: Json)

  // ---------- Layout 1: "advisories" ----------

  function AdvisoryTuple(py: Python, advisory: Json): Result<Vuln, Raised> {
    if !advisory.Obj? then Failure(AttributeError)
    else
      var ms := advisory.members;
      var id :- PickAdvisoryId(py, ms);
      Success(Vuln(
        Or(Get(ms, "module_name"), Get(ms, "name")),
        Get(ms, "severity"),
        id,
        Or(Get(ms, "title"), Or(Get(ms, "advisory"), Or(Get(ms, "overview"), Get(ms, "url"))))))
  }

  /** Puts tuples already produced in front of what the rest of the generator does. */
  function Prepend(done: seq<Vuln>, rest: Result<seq<Vuln>, Raised>): Result<seq<Vuln>, Raised> {
    if rest.Failure? then rest else Success(done + rest.value)
  }

  lemma PrependNothing(rest: Result<seq<Vuln>, Raised>)
    ensures Prepend([], rest) == rest
  {
    assert rest.Success? ==> [] + rest.value == rest.value;
  }

  lemma PrependTwice(a: seq<Vuln>, b: seq<Vuln>, rest: Result<seq<Vuln>, Raised>)
    ensures Prepend(a, Prepend(b, rest)) == Prepend(a + b, rest)
  {
    assert rest.Success? ==> a + (b + rest.value) == a + b + rest.value;
  }

  function AdvisoryTuples(py: Python, ms: seq<Member>): Result<seq<Vuln>, Raised> {
    if ms == [] then Success([])
    else
      var v :- AdvisoryTuple(py, ms[0].value);
      Prepend([v], AdvisoryTuples(py, ms[1..]))
  }

  method FromAdvisories(py: Python, advisories: Json) returns (res: Result<seq<Vuln>, Raised>)
    ensures res == if advisories.Obj? then AdvisoryTuples(py, advisories.members) else Success([])
  {
    if !advisories.Obj? {
      return Success([]);
    }
    var ms := advisories.members;
    var tuples: seq<Vuln> := [];
    PrependNothing(AdvisoryTuples(py, ms));
    assert ms[0..] == ms;
    for n := 0 to |ms|
      invariant AdvisoryTuples(py, ms) == Prepend(tuples, AdvisoryTuples(py, ms[n..]))
    {
      assert ms[n..][1..] == ms[n + 1..];
      var v :- AdvisoryTuple(py, ms[n].value);
      PrependTwice(tuples, [v], AdvisoryTuples(py, ms[n + 1..]));
      tuples := tuples + [v];
    }
    assert tuples + [] == tuples;
    return Success(tuples);
  }

  // ---------- Layout 2: "vulnerabilities" ----------

  /** The title a `via` object offers. */
  function TitleOf(ms: seq<Member>): Json {
    Or(Get(ms, "title"), Or(Get(ms, "url"), Or(Get(ms, "advisory"), Get(ms, "source"))))
  }

  /** The identifier and the title one `via` entry contributes; entries of other types contribute
      nothing. */
  function ViaEntry(item: Json): Option<(Json, Json)> {
    match item
    case Obj(ms) => Some((
      Or(Get(ms, "github_advisory_id"), Or(Get(ms, "url"), Or(Get(ms, "source"),
      Or(Get(ms, "title"), Get(ms, "name"))))),
      TitleOf(ms)))
    case Str(_) => Some((item, item))
    case _ => None
  }

  function ViaEntries(items: seq<Json>): seq<(Json, Json)> {
    if items == [] then []
    else
      var rest := ViaEntries(items[1..]);
      match ViaEntry(items[0])
      case Some(e) => [e] + rest
      case None => rest
  }

  /** The (identifier, title) pairs of `via`, which is a list, a string or something ignored. */
  function Via(via: Json): seq<(Json, Json)> {
    match via
    case List(items) => ViaEntries(items)
    case Str(_) => [(via, via)]
    case _ => []
  }

  function TruthyOnly(js: seq<Json>): seq<Json> {
    if js == [] then [] else (if Truthy(js[0]) then [js[0]] else []) + TruthyOnly(js[1..])
  }

  function Ids(es: seq<(Json, Json)>): seq<Json> {
    if es == [] then [] else [es[0].0] + Ids(es[1..])
  }

  function Titles(es: seq<(Json, Json)>): seq<Json> {
    if es == [] then [] else [es[0].1] + Titles(es[1..])
  }

  /** `"; ".join(titles)` insists on strings. */
  function JoinTitles(ts: seq<Json>): Result<string, Raised> {
    if ts == [] then Success("")
    else if !ts[0].Str? then Failure(TypeError)
    else
      var rest :- JoinTitles(ts[1..]);
      Success(if |ts| == 1 then ts[0].s else ts[0].s + "; " + rest)
  }

  function Label(name: Json, severity: Json, title: Json, ids: seq<Json>): seq<Vuln> {
    if ids == [] then [] else [Vuln(name, severity, ids[0], title)] + Label(name, severity, title, ids[1..])
  }

  /** All tuples of one entry of "vulnerabilities": one for each usable identifier, all sharing the
      joined title. */
  function VulnerabilityTuples(m: Member): Result<seq<Vuln>, Raised> {
    if !m.value.Obj? then Failure(AttributeError)
    else
      var ms := m.value.members;
      var es := Via(Get(ms, "via"));
      var title :- JoinTitles(TruthyOnly(Titles(es)));
      Success(Label(Str(m.key), Get(ms, "severity"), Str(title), TruthyOnly(Ids(es))))
  }

  function AllVulnerabilityTuples(ms: seq<Member>): Result<seq<Vuln>, Raised> {
    if ms == [] then Success([])
    else
      var vs :- VulnerabilityTuples(ms[0]);
      Prepend(vs, AllVulnerabilityTuples(ms[1..]))
  }

  method ReadVia(via: Json) returns (advisories: seq<Json>, titles: seq<Json>)
    ensures advisories == Ids(Via(via)) && titles == Titles(Via(via))
  {
    advisories, titles := [], [];
    if via.List? {
      var items := via.items;
      for n := 0 to |items|
        invariant advisories + Ids(ViaEntries(items[n..])) == Ids(ViaEntries(items))
        invariant titles + Titles(ViaEntries(items[n..])) == Titles(ViaEntries(items))
      {
        assert items[n..][1..] == items[n + 1..];
        match ViaEntry(items[n]) {
          case Some(e) =>
            assert ViaEntries(items[n..])[1..] == ViaEntries(items[n + 1..]);
            advisories, titles := advisories + [e.0], titles + [e.1];
          case None =>
        }
      }
    } else if via.Str? {
      advisories, titles := [via], [via];
    }
  }

  method FromVulnerability(m: Member) returns (res: Result<seq<Vuln>, Raised>)
    ensures res == VulnerabilityTuples(m)
  {
    var vuln := m.value;
    if !vuln.Obj? {
      return Failure(AttributeError);
    }
    var severity := Get(vuln.members, "severity");
    var advisories, titles := ReadVia(Get(vuln.members, "via"));
    var title :- JoinTitles(TruthyOnly(titles));
    var usable := TruthyOnly(advisories);
    var tuples: seq<Vuln> := [];
    for k := 0 to |usable|
      invariant tuples + Label(Str(m.key), severity, Str(title), usable[k..]) ==
                Label(Str(m.key), severity, Str(title), usable)
    {
      assert usable[k..][1..] == usable[k + 1..];
      tuples := tuples + [Vuln(Str(m.key), severity, usable[k], Str(title))];
    }
    assert tuples + [] == tuples;
    return Success(tuples);
  }

  method FromVulnerabilities(vulnerabilities: Json) returns (res: Result<seq<Vuln>, Raised>)
    ensures res == if vulnerabilities.Obj? then AllVulnerabilityTuples(vulnerabilities.members) else Success([])
  {
    if !vulnerabilities.Obj? {
      return Success([]);
    }
    var ms := vulnerabilities.members;
    var tuples: seq<Vuln> := [];
    PrependNothing(AllVulnerabilityTuples(ms));
    assert ms[0..] == ms;
    for n := 0 to |ms|
      invariant AllVulnerabilityTuples(ms) == Prepend(tuples, AllVulnerabilityTuples(ms[n..]))
    {
      assert ms[n..][1..] == ms[n + 1..];
      var vs :- FromVulnerability(ms[n]);
      PrependTwice(tuples, vs, AllVulnerabilityTuples(ms[n + 1..]));
      tuples := tuples + vs;
    }
    assert tuples + [] == tuples;
    return Success(tuples);
  }

  // ---------- Both layouts together ----------

  function Tuples(py: Python, data: Json): Result<seq<Vuln>, Raised> {
    if !data.Obj? then Failure(AttributeError)
    else
      var advisories, vulnerabilities := Get(data.members, "advisories"), Get(data.members, "vulnerabilities");
      var first :- if advisories.Obj? then AdvisoryTuples(py, advisories.members) else Success([]);
      Prepend(first, if vulnerabilities.Obj? then AllVulnerabilityTuples(vulnerabilities.members) else Success([]))
  }

  /** The generator, run to its end. */
  method IterVulns(py: Python, data: Json) returns (res: Result<seq<Vuln>, Raised>)
    ensures res == Tuples(py, data)
  {
    if !data.Obj? {
      return Failure(AttributeError);
    }
    var first :- FromAdvisories(py, Get(data.members, "advisories"));
    var second :- FromVulnerabilities(Get(data.members, "vulnerabilities"));
    return Success(first + second);
  }

  // ---------- What the tuples are ----------

  /** One tuple for each advisory, in order. */
  lemma {:induction false} AdvisoryTuplesAt(py: Python, ms: seq<Member>)
    ensures AdvisoryTuples(py, ms).Success? <==>
            forall i :: 0 <= i < |ms| ==> AdvisoryTuple(py, ms[i].value).Success?
    ensures AdvisoryTuples(py, ms).Success? ==>
              && |AdvisoryTuples(py, ms).value| == |ms|
              && forall i :: 0 <= i < |ms| ==>
                   AdvisoryTuples(py, ms).value[i] == AdvisoryTuple(py, ms[i].value).value
  {
    if ms != [] {
      var rest := ms[1..];
      AdvisoryTuplesAt(py, rest);
      assert forall i :: 0 < i < |ms| ==> ms[i] == rest[i - 1];
      assert forall i :: 0 <= i < |rest| ==> rest[i] == ms[i + 1];
    }
  }

  lemma {:induction false} JoinNeedsStrings(ts: seq<Json>)
    ensures JoinTitles(ts).Success? <==> forall t :: t in ts ==> t.Str?
  {
    if ts != [] {
      JoinNeedsStrings(ts[1..]);
      assert forall t :: t in ts <==> t == ts[0] || t in ts[1..];
    }
  }

  lemma {:induction false} TruthyMembers(js: seq<Json>)
    ensures forall j :: j in TruthyOnly(js) <==> j in js && Truthy(j)
  {
    if js != [] {
      TruthyMembers(js[1..]);
      assert forall j :: j in js <==> j == js[0] || j in js[1..];
    }
  }

  lemma {:induction false} TitleMembers(es: seq<(Json, Json)>)
    ensures |Titles(es)| == |es|
    ensures forall i :: 0 <= i < |es| ==> Titles(es)[i] == es[i].1
  {
    if es != [] {
      TitleMembers(es[1..]);
    }
  }

  /** An entry of "vulnerabilities" can be read exactly when it is an object and no `via` entry picks
      a usable title that is not a string. */
  lemma VulnerabilityReadable(m: Member)
    ensures VulnerabilityTuples(m).Success? <==>
            && m.value.Obj?
            && forall e :: e in Via(Get(m.value.members, "via")) ==> Truthy(e.1) ==> e.1.Str?
  {
    if m.value.Obj? {
      var es := Via(Get(m.value.members, "via"));
      var ts := Titles(es);
      TitleMembers(es);
      TruthyMembers(ts);
      JoinNeedsStrings(TruthyOnly(ts));
      forall e | e in es
        ensures e.1 in ts
      {
        var i :| 0 <= i < |es| && es[i] == e;
        assert ts[i] == e.1;
      }
      forall t | t in ts
        ensures exists e :: e in es && e.1 == t
      {
        var i :| 0 <= i < |ts| && ts[i] == t;
        assert es[i] in es;
      }
    }
  }

  /** A numeric `source` is accepted as an identifier, but an entry that has nothing else to show as
      its title makes the join raise TypeError. */
  lemma NumericSourceAloneRaises(py: Python)
    ensures
      var entry := Obj([Member("source", Number("1096", false)), Member("name", Str("semver"))]);
      var vuln := Obj([Member("severity", Str("high")), Member("via", List([entry]))]);
      var data := Obj([Member("vulnerabilities", Obj([Member("semver", vuln)]))]);
      Tuples(py, data) == Failure(TypeError)
  {
    var source := Number("1096", false);
    var ms := [Member("source", source), Member("name", Str("semver"))];
    var vms := [Member("severity", Str("high")), Member("via", List([Obj(ms)]))];
    var dms := [Member("vulnerabilities", Obj([Member("semver", Obj(vms))]))];
    assert Get(ms, "source") == source;
    assert Get(ms, "title") == Null && Get(ms, "url") == Null && Get(ms, "advisory") == Null by {
      NotThere(ms, "title");
      NotThere(ms, "url");
      NotThere(ms, "advisory");
    }
    NotThere(vms[..1], "via");
    assert vms[1..] == [Member("via", List([Obj(ms)]))];
    var via := Get(vms, "via");
    assert via == Get(vms[1..], "via") == List([Obj(ms)]);
    assert ViaEntries([Obj(ms)])[0].1 == source;
    assert (ViaEntry(Obj(ms)).value) in Via(via);
    VulnerabilityReadable(Member("semver", Obj(vms)));
    NotThere(dms, "advisories");
    assert Get(dms, "vulnerabilities") == Obj([Member("semver", Obj(vms))]);
  }

  lemma {:induction false} NotThere(ms: seq<Member>, key: string)
    requires forall i :: 0 <= i < |ms| ==> ms[i].key != key
    ensures Get(ms, key) == Null
  {
    if ms != [] {
      NotThere(ms[1..], key);
    }
  }
}
