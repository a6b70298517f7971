/** Laws of the gate's verdict: an earlier day, and more exceptions. */
module AuditLaws {
  import opened AuditText
  import AuditExceptions
  import AuditLayout
  import opened AuditVulns
  import opened AuditGate

  lemma {:induction false} AcceptsEarlier(py: Python, records: seq<Record>, vulns: seq<Vuln>, day: int, earlier: int)
    requires Accepts(py, records, vulns, day) && earlier <= day
    ensures Accepts(py, records, vulns, earlier)
  {
    hide Keyed, EntryOf, Counted, Unidentified, FirstSev, AllWellFormed, DistinctKeys;
    forall k | Counted(py, vulns, k)
      ensures CoveredBy(py, records, vulns, earlier, k)
    {
      assert CoveredBy(py, records, vulns, day, k);
      var i :| 0 <= i < |records| && Covers(py, records[i], k, FirstSev(py, vulns, k).value, day);
      assert Covers(py, records[i], k, FirstSev(py, vulns, k).value, earlier);
    }
  }

  /** The list with one more record: which positions of the old list stand where. */
  lemma {:induction false} OneMore<T>(before: seq<T>, x: T, after: seq<T>)
    ensures var fewer, more := before + after, before + [x] + after;
            && |more| == |fewer| + 1 && more[|before|] == x
            && (forall i :: 0 <= i < |fewer| ==> fewer[i] == more[if i < |before| then i else i + 1])
            && forall i :: 0 <= i < |more| && i != |before| ==> more[i] == fewer[if i < |before| then i else i - 1]
  {
  }

  lemma {:induction false} SoundWithMore(py: Python, before: seq<Record>, exc: Record, after: seq<Record>)
    requires AllWellFormed(py, before + after) && DistinctKeys(py, before + after)
    requires Keyed(py, exc).Some? && ExceptionFor(py, before + after, Keyed(py, exc).value).None?
    ensures AllWellFormed(py, before + [exc] + after) && DistinctKeys(py, before + [exc] + after)
  {
    hide Keyed;
    var fewer, more := before + after, before + [exc] + after;
    OneMore(before, exc, after);
    assert forall i :: 0 <= i < |fewer| ==> Keyed(py, fewer[i]) != Keyed(py, exc);
    hide ExceptionFor;
    forall i, j | 0 <= i < j < |more|
      ensures Keyed(py, more[i]) != Keyed(py, more[j])
    {
    }
  }

  lemma {:induction false} CoveredWithMore(py: Python, before: seq<Record>, exc: Record, after: seq<Record>,
                                           vulns: seq<Vuln>, day: int, k: Key)
    requires Counted(py, vulns, k) && CoveredBy(py, before + after, vulns, day, k)
    ensures CoveredBy(py, before + [exc] + after, vulns, day, k)
  {
    hide Covers, Counted, FirstSev;
    var fewer, more := before + after, before + [exc] + after;
    OneMore(before, exc, after);
    var i :| 0 <= i < |fewer| && Covers(py, fewer[i], k, FirstSev(py, vulns, k).value, day);
    assert Covers(py, more[if i < |before| then i else i + 1], k, FirstSev(py, vulns, k).value, day);
  }

  lemma {:induction false} AcceptsWithMore(py: Python, before: seq<Record>, exc: Record, after: seq<Record>,
                                           vulns: seq<Vuln>, day: int)
    requires Accepts(py, before + after, vulns, day)
    requires Keyed(py, exc).Some? && ExceptionFor(py, before + after, Keyed(py, exc).value).None?
    ensures Accepts(py, before + [exc] + after, vulns, day)
  {
    hide Keyed, ExceptionFor, Counted, Unidentified, CoveredBy, AllWellFormed, DistinctKeys;
    SoundWithMore(py, before, exc, after);
    forall k | Counted(py, vulns, k)
      ensures CoveredBy(py, before + [exc] + after, vulns, day, k)
    {
      CoveredWithMore(py, before, exc, after, vulns, day, k);
    }
  }

  /** A pass on one day is a pass on every earlier day. */
  lemma {:induction false} PassesEarlier(py: Python, exceptions: string, audit: Json, day: int, earlier: int)
    requires Passes(py, exceptions, audit, day) && earlier <= day
    ensures Passes(py, exceptions, audit, earlier)
  {
    hide Accepts, Tuples, AuditExceptions.Parse;
    AcceptsEarlier(py, AuditExceptions.Parse(exceptions).value, Tuples(py, audit).value, day, earlier);
  }

  /** A passing run still passes when the lines of a well-formed exception with a new key, in any layout,
      are put between two others, at the top or at the end of the exceptions file. */
  lemma {:induction false} PassesWithMoreExceptions(py: Python, head: string, b: AuditLayout.Block, tail: string,
                                                    audit: Json, day: int)
    requires EndsLine(head) && AuditLayout.StandsAlone(tail) && b.Plain()
    requires Passes(py, head + tail, audit, day)
    requires var exc := AuditLayout.Dict(b);
             Keyed(py, exc).Some? &&
             ExceptionFor(py, AuditExceptions.Parse(head + tail).value, Keyed(py, exc).value).None?
    ensures Passes(py, head + AuditLayout.Entered(b) + tail, audit, day)
  {
    hide Accepts, Tuples, Keyed, ExceptionFor, EndsLine, AuditLayout.StandsAlone, AuditLayout.Block.Plain;
    hide AuditLayout.Dict, AuditLayout.Entered, AuditExceptions.Parse;
    AuditLayout.ParseInsert(head, b, tail);
    AcceptsWithMore(py, AuditExceptions.Parse(head).value, AuditLayout.Dict(b), AuditExceptions.Parse(tail).value,
                    Tuples(py, audit).value, day);
  }
}
