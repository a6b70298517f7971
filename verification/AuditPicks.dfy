/** Which members of an advisory, or of a `via` entry, a tuple is made of. */
module AuditPicks {
  import opened Results
  import opened Selections
  import opened AuditVulns
  import opened AuditReading

  /** Python's `a or b or c`: the first truthy one, or else the last. */
  predicate FirstOf(xs: seq<Json>, r: Json) {
    exists i :: 0 <= i < |xs| && xs[i] == r && (Truthy(r) || i == |xs| - 1) &&
                forall j :: 0 <= j < i ==> !Truthy(xs[j])
  }

  /** What is false in Python: None, False, zero, and anything empty. */
  lemma {:induction false} FalsyValues(j: Json)
    ensures !Truthy(j) <==>
            || j == Null || j == Bool(false) || (j.Number? && j.zero) || j == Str("") || j == List([]) || j == Obj([])
  {
  }

  /** `str(x)` of texts, numbers, truth values and None. */
  lemma {:induction false} PrintedForms(py: Python, s: string, zero: bool, j: Json)
    ensures ToStr(py, Str(s)) == s && ToStr(py, Number(s, zero)) == s
    ensures ToStr(py, Bool(true)) == "True" && ToStr(py, Bool(false)) == "False" && ToStr(py, Null) == "None"
    ensures j.List? || j.Obj? ==> ToStr(py, j) == py.repr(j)
  {
  }

  /** A member under a key that occurs once. */
  lemma {:induction false} GetAt(ms: seq<Member>, i: nat)
    requires i < |ms| && forall j :: 0 <= j < i ==> ms[j].key != ms[i].key
    ensures Get(ms, ms[i].key) == ms[i].value
  {
    if i > 0 {
      assert ms[0].key != ms[i].key;
      GetAt(ms[1..], i - 1);
    }
  }

  /** The first of the advisory's CVEs, when there are any; a text counts by its characters. */
  function CveOf(ms: seq<Member>): Json {
    match Get(ms, "cves")
    case List(items) => if items == [] then Null else items[0]
    case Str(s) => if s == "" then Null else Str([s[0]])
    case _ => Null
  }

  /** The printed number of the advisory. */
  function IdText(py: Python, ms: seq<Member>): Json {
    if Get(ms, "id") == Null then Null else Str(ToStr(py, Get(ms, "id")))
  }

  /** The tuple of an advisory: which member gives what, and in which order of preference. */
  ghost predicate AdvisoryMembers(py: Python, ms: seq<Member>, v: Vuln) {
    && FirstOf([Get(ms, "module_name"), Get(ms, "name")], v.name)
    && v.severity == Get(ms, "severity")
    && FirstOf([Get(ms, "github_advisory_id"), Get(ms, "url"), CveOf(ms), IdText(py, ms),
                Get(ms, "title"), Get(ms, "advisory"), Get(ms, "overview")], v.advisory)
    && FirstOf([Get(ms, "title"), Get(ms, "advisory"), Get(ms, "overview"), Get(ms, "url")], v.title)
  }

  // ---------- Choosing ----------

  lemma {:induction false} FirstOfTwo(a: Json, b: Json)
    ensures FirstOf([a, b], Or(a, b))
  {
    var xs := [a, b];
    assert xs[0] == a && xs[1] == b;
  }

  /** One more candidate in front. */
  lemma {:induction false} FirstOfMore(a: Json, xs: seq<Json>, r: Json)
    requires FirstOf(xs, r)
    ensures FirstOf([a] + xs, Or(a, r))
  {
    var all := [a] + xs;
    if Truthy(a) {
      assert all[0] == a;
    } else {
      var i :| 0 <= i < |xs| && xs[i] == r && (Truthy(r) || i == |xs| - 1) && forall j :: 0 <= j < i ==> !Truthy(xs[j]);
      assert all[i + 1] == r;
      assert forall j :: 0 <= j < i + 1 ==> !Truthy(all[j]);
    }
  }

  lemma {:induction false} FirstOfFour(a: Json, b: Json, c: Json, d: Json)
    ensures FirstOf([a, b, c, d], Or(a, Or(b, Or(c, d))))
  {
    FirstOfTwo(c, d);
    FirstOfMore(b, [c, d], Or(c, d));
    FirstOfMore(a, [b] + [c, d], Or(b, Or(c, d)));
    assert [a] + ([b] + [c, d]) == [a, b, c, d];
  }

  lemma {:induction false} FirstOfFive(a: Json, b: Json, c: Json, d: Json, e: Json)
    ensures FirstOf([a, b, c, d, e], Or(a, Or(b, Or(c, Or(d, e)))))
  {
    FirstOfFour(b, c, d, e);
    FirstOfMore(a, [b, c, d, e], Or(b, Or(c, Or(d, e))));
    assert [a] + [b, c, d, e] == [a, b, c, d, e];
  }

  // ---------- Advisories ----------

  lemma {:induction false} IdentifierPicked(py: Python, ms: seq<Member>)
    requires PickAdvisoryId(py, ms).Success?
    ensures FirstOf([Get(ms, "github_advisory_id"), Get(ms, "url"), CveOf(ms), IdText(py, ms),
                     Get(ms, "title"), Get(ms, "advisory"), Get(ms, "overview")], PickAdvisoryId(py, ms).value)
  {
    hide FirstOf, ToStr, Or, Get, CveOf, IdText, PickAdvisoryId;
    var gid, url, cve, id := Get(ms, "github_advisory_id"), Get(ms, "url"), CveOf(ms), IdText(py, ms);
    var title, advisory, overview := Get(ms, "title"), Get(ms, "advisory"), Get(ms, "overview");
    FirstOfFive(cve, id, title, advisory, overview);
    var five := Or(cve, Or(id, Or(title, Or(advisory, overview))));
    FirstOfMore(url, [cve, id, title, advisory, overview], five);
    FirstOfMore(gid, [url] + [cve, id, title, advisory, overview], Or(url, five));
    assert [gid] + ([url] + [cve, id, title, advisory, overview]) == [gid, url, cve, id, title, advisory, overview];
    PickedByOrs(py, ms);
  }

  lemma {:induction false} PickedByOrs(py: Python, ms: seq<Member>)
    requires PickAdvisoryId(py, ms).Success?
    ensures PickAdvisoryId(py, ms).value ==
            Or(Get(ms, "github_advisory_id"), Or(Get(ms, "url"), Or(CveOf(ms), Or(IdText(py, ms),
            Or(Get(ms, "title"), Or(Get(ms, "advisory"), Get(ms, "overview")))))))
  {
    hide Get, ToStr;
  }

  /** What the tuple of a readable advisory is made of. */
  lemma {:induction false} AdvisoryTupleMade(py: Python, a: Json)
    requires AdvisoryReads(a)
    ensures AdvisoryTuple(py, a).Success? && AdvisoryMembers(py, a.members, AdvisoryTuple(py, a).value)
  {
    AdvisoryReadable(py, a);
    hide FirstOf, AdvisoryReads, CveOf, IdText;
    var ms := a.members;
    IdentifierPicked(py, ms);
    hide PickAdvisoryId, Get, Or;
    FirstOfTwo(Get(ms, "module_name"), Get(ms, "name"));
    FirstOfFour(Get(ms, "title"), Get(ms, "advisory"), Get(ms, "overview"), Get(ms, "url"));
  }

  // ---------- `via` entries ----------

  /** The identifier and the title a `via` entry contributes: of an object the first of several members, of
      a text the text itself; anything else contributes nothing. */
  ghost predicate Contributes(item: Json, id: Json, title: Json) {
    match item
    case Obj(ms) =>
      && FirstOf([Get(ms, "github_advisory_id"), Get(ms, "url"), Get(ms, "source"), Get(ms, "title"), Get(ms, "name")],
                 id)
      && FirstOf([Get(ms, "title"), Get(ms, "url"), Get(ms, "advisory"), Get(ms, "source")], title)
    case Str(_) => id == item && title == item
    case _ => false
  }

  lemma {:induction false} FirstOfUnique(xs: seq<Json>, a: Json, b: Json)
    requires FirstOf(xs, a) && FirstOf(xs, b)
    ensures a == b
  {
    var i :| 0 <= i < |xs| && xs[i] == a && (Truthy(a) || i == |xs| - 1) && forall j :: 0 <= j < i ==> !Truthy(xs[j]);
    var k :| 0 <= k < |xs| && xs[k] == b && (Truthy(b) || k == |xs| - 1) && forall j :: 0 <= j < k ==> !Truthy(xs[j]);
    assert i == k;
  }

  lemma {:induction false} EntryMade(item: Json, id: Json, title: Json)
    ensures ViaEntry(item) == Some((id, title)) <==> Contributes(item, id, title)
  {
    hide FirstOf, Get, Or;
    if item.Obj? {
      var ms := item.members;
      var gid, url, source := Get(ms, "github_advisory_id"), Get(ms, "url"), Get(ms, "source");
      FirstOfFive(gid, url, source, Get(ms, "title"), Get(ms, "name"));
      FirstOfFour(Get(ms, "title"), url, Get(ms, "advisory"), source);
      if Contributes(item, id, title) {
        var e := ViaEntry(item).value;
        FirstOfUnique([gid, url, source, Get(ms, "title"), Get(ms, "name")], id, e.0);
        FirstOfUnique([Get(ms, "title"), url, Get(ms, "advisory"), source], title, e.1);
      }
    }
  }

  /** Joining: between every two titles "; ", and nothing else. */
  lemma {:induction false} JoinedTitles(ts: seq<Json>, last: Json)
    requires JoinTitles(ts).Success? && last.Str?
    ensures JoinTitles(ts + [last]) == Success(if ts == [] then last.s else JoinTitles(ts).value + "; " + last.s)
  {
    if ts == [] {
      assert [] + [last] == [last] && [last][1..] == [];
    } else {
      assert (ts + [last])[0] == ts[0] && (ts + [last])[1..] == ts[1..] + [last];
      JoinedTitles(ts[1..], last);
      if |ts| > 1 {
        var head, rest := ts[0].s + "; ", JoinTitles(ts[1..]).value;
        assert JoinTitles(ts) == Success(head + rest);
        assert JoinTitles(ts + [last]) == Success(head + (rest + "; " + last.s));
        ThreeParts(rest, "; ", last.s);
        ThreeParts(head, rest, "; " + last.s);
        ThreeParts(head + rest, "; ", last.s);
      }
    }
  }

  lemma NothingJoined()
    ensures JoinTitles([]) == Success("")
  {
  }

  /** The usable ones are kept in their order. */
  lemma {:induction false} TruthyOnlyKeeps(js: seq<Json>, last: Json)
    ensures TruthyOnly(js + [last]) == TruthyOnly(js) + if Truthy(last) then [last] else []
  {
    if js == [] {
      assert [] + [last] == [last] && [last][1..] == [];
    } else {
      var all := js + [last];
      assert all[0] == js[0] && all[1..] == js[1..] + [last];
      var first := if Truthy(js[0]) then [js[0]] else [];
      assert TruthyOnly(all) == first + TruthyOnly(js[1..] + [last]);
      assert TruthyOnly(js) == first + TruthyOnly(js[1..]);
      hide TruthyOnly;
      TruthyOnlyKeeps(js[1..], last);
      ThreeParts(first, TruthyOnly(js[1..]), if Truthy(last) then [last] else []);
    }
  }

  /** The entry yields the tuple: one of its `via` items contributes the identifier, which is usable, and the
      title joins the usable titles of all. */
  lemma {:induction false} EntryTupleMade(m: Member, v: Vuln)
    requires EntryReads(m.value) && Yields(m, v)
    ensures v.name == Str(m.key) && v.severity == Get(m.value.members, "severity") && Truthy(v.advisory)
    ensures var via := Get(m.value.members, "via");
            || via == v.advisory
            || (via.List? && exists i, title :: 0 <= i < |via.items| && Contributes(via.items[i], v.advisory, title))
  {
    var via := Get(m.value.members, "via");
    var e :| e in Via(via) && e.0 == v.advisory;
    hide Get, Contributes, JoinTitles, EntryReads;
    if via.List? {
      ViaEntriesFrom(via.items, e);
      var i :| 0 <= i < |via.items| && ViaEntry(via.items[i]) == Some(e);
      EntryMade(via.items[i], e.0, e.1);
    }
  }
}
