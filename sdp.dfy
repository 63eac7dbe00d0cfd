/** mergeDescription (apps/react-webrtc/lib/rtc-peer.ts): the legacy variant
    that writes the gathered ICE candidates into the answer's SDP text, one
    `a=candidate` attribute line (section 5.1 of RFC 8839) per candidate,
    right after the first `a=setup:active` line (section 4 of RFC 4145).
    String.prototype.replace with a string pattern replaces the first
    occurrence only; Array.prototype.join and String.prototype.split are
    modelled for a one-character separator. */
module Sdp {
  import opened Wire

  const SetupActive: string := "a=setup:active"

  /** `pat` occurs in `s` at index `i`. */
  predicate OccursAt(s: string, pat: string, i: nat)
  {
    i + |pat| <= |s| && s[i..i + |pat|] == pat
  }

  /** String.prototype.indexOf, searching from `from`: the first index at or
      after `from` where `pat` occurs. */
  function IndexFrom(s: string, pat: string, from: nat): (r: Option<nat>)
    requires from <= |s|
    ensures r.Some? ==> from <= r.value && OccursAt(s, pat, r.value)
    ensures r.Some? ==> forall j :: from <= j < r.value ==> !OccursAt(s, pat, j)
    ensures r.None? ==> forall j :: from <= j <= |s| ==> !OccursAt(s, pat, j)
    decreases |s| - from
  {
    if OccursAt(s, pat, from) then Some(from)
    else if from == |s| then None
    else IndexFrom(s, pat, from + 1)
  }

  function IndexOf(s: string, pat: string): Option<nat>
  {
    IndexFrom(s, pat, 0)
  }

  /** The first occurrence is the only index with an occurrence and none before it. */
  lemma IndexOfIsFirst(s: string, pat: string, i: nat)
    requires OccursAt(s, pat, i)
    requires forall j :: 0 <= j < i ==> !OccursAt(s, pat, j)
    ensures IndexOf(s, pat) == Some(i)
  {
  }

  /** GetSubstitution (section 22.1.3.19.1 of ECMA-262) for a string
      pattern, which has no capture groups: in the replacement template `$$`
      stands for `$`, `$&` for the matched text, `` $` `` for the text before
      the match and `$'` for the text after it; any other `$` (`$1`, `$<`, a
      lone `$`) is copied as it is. A template without `$` is copied
      literally. */
  function Substitution(template: string, matched: string, before: string, after: string): (r: string)
    ensures '$' !in template ==> r == template
  {
    if template == [] then ""
    else if template[0] == '$' && |template| >= 2 && template[1] in "$&`'" then
      (if template[1] == '$' then "$"
       else if template[1] == '&' then matched
       else if template[1] == '`' then before
       else after)
      + Substitution(template[2..], matched, before, after)
    else
      var rest := Substitution(template[1..], matched, before, after);
      assert '$' !in template ==> rest == template[1..];
      [template[0]] + rest
  }

  /** String.prototype.replace with a string pattern: the first occurrence of
      `pat` is replaced by the substitution of `rep`; no occurrence, no change. */
  function Replace(s: string, pat: string, rep: string): (r: string)
    ensures IndexOf(s, pat).None? ==> r == s
  {
    match IndexOf(s, pat)
    case None => s
    case Some(i) => s[..i] + Substitution(rep, pat, s[..i], s[i + |pat|..]) + s[i + |pat|..]
  }

  /** Whatever the replacement, the text before the first occurrence and the
      text after it are kept. */
  lemma ReplaceKeepsOutside(s: string, pat: string, rep: string, i: nat)
    requires IndexOf(s, pat) == Some(i)
    ensures i + |pat| <= |s| && i <= |Replace(s, pat, rep)| - (|s| - i - |pat|)
    ensures Replace(s, pat, rep)[..i] == s[..i]
    ensures Replace(s, pat, rep)[|Replace(s, pat, rep)| - (|s| - i - |pat|)..] == s[i + |pat|..]
  {
    var head, tail := s[..i], s[i + |pat|..];
    var mid := Substitution(rep, pat, head, tail);
    var r := Replace(s, pat, rep);
    assert r == head + mid + tail;
    assert |tail| == |s| - i - |pat|;
    assert r[..i] == head;
    assert r[|r| - |tail|..] == tail;
  }

  /** A replacement without `$` is inserted literally in place of the first
      occurrence. */
  lemma ReplaceLiteral(s: string, pat: string, rep: string, i: nat)
    requires '$' !in rep && IndexOf(s, pat) == Some(i)
    ensures i + |pat| <= |s| && Replace(s, pat, rep) == s[..i] + rep + s[i + |pat|..]
  {
  }

  /** Array.prototype.join(sep). */
  function Join(lines: seq<string>, sep: string): string
  {
    if lines == [] then ""
    else if |lines| == 1 then lines[0]
    else lines[0] + sep + Join(lines[1..], sep)
  }

  /** A character in neither the lines nor the separator is not in the join. */
  lemma {:induction false} JoinAvoids(lines: seq<string>, sep: string, x: char)
    requires x !in sep && forall k :: 0 <= k < |lines| ==> x !in lines[k]
    ensures x !in Join(lines, sep)
  {
    if |lines| > 1 {
      JoinAvoids(lines[1..], sep, x);
      assert x !in lines[0];
    }
  }

  /** String.prototype.split with a one-character separator. */
  function Split(s: string, sep: char): (r: seq<string>)
    ensures |r| >= 1
  {
    if s == [] then [""]
    else if s[0] == sep then [""] + Split(s[1..], sep)
    else
      var rest := Split(s[1..], sep);
      [[s[0]] + rest[0]] + rest[1..]
  }

  lemma {:induction false} SplitNoSeparator(s: string, sep: char)
    requires sep !in s
    ensures Split(s, sep) == [s]
  {
    if s != [] {
      SplitNoSeparator(s[1..], sep);
      assert [s[0]] + s[1..] == s;
    }
  }

  lemma {:induction false} SplitAfterLine(a: string, sep: char, t: string)
    requires sep !in a
    ensures Split(a + [sep] + t, sep) == [a] + Split(t, sep)
  {
    if a == [] {
      assert a + [sep] + t == [sep] + t;
      assert ([sep] + t)[1..] == t;
    } else {
      assert (a + [sep] + t)[1..] == a[1..] + [sep] + t;
      SplitAfterLine(a[1..], sep, t);
      assert [a[0]] + a[1..] == a;
    }
  }

  /** Splitting a join on the same one-character separator gives the lines
      back, as long as no line contains the separator. */
  lemma {:induction false} SplitJoin(lines: seq<string>, sep: char)
    requires lines != []
    requires forall k :: 0 <= k < |lines| ==> sep !in lines[k]
    ensures Split(Join(lines, [sep]), sep) == lines
  {
    if |lines| == 1 {
      SplitNoSeparator(lines[0], sep);
    } else {
      SplitJoin(lines[1..], sep);
      SplitAfterLine(lines[0], sep, Join(lines[1..], [sep]));
      assert [lines[0]] + lines[1..] == lines;
    }
  }

  /** `candidates.map(c => 'a=' + c.candidate)` */
  function CandidateLines(candidates: seq<IceCandidate>): (r: seq<string>)
    ensures |r| == |candidates|
    ensures forall k :: 0 <= k < |r| ==> r[k] == "a=" + candidates[k].candidate
  {
    seq(|candidates|, k requires 0 <= k < |candidates| => "a=" + candidates[k].candidate)
  }

  /** The replacement text: the marker, a newline, then the candidate lines
      joined by newlines. */
  function Insertion(candidates: seq<IceCandidate>): string
  {
    SetupActive + "\n" + Join(CandidateLines(candidates), "\n")
  }

  /** No candidate string holds a `$`, so the replacement text holds no
      substitution pattern. */
  predicate DollarFree(candidates: seq<IceCandidate>)
  {
    forall k :: 0 <= k < |candidates| ==> '$' !in candidates[k].candidate
  }

  lemma InsertionLiteral(candidates: seq<IceCandidate>)
    requires DollarFree(candidates)
    ensures '$' !in Insertion(candidates)
  {
    var lines := CandidateLines(candidates);
    forall k | 0 <= k < |lines|
      ensures '$' !in lines[k]
    {
      assert lines[k] == "a=" + candidates[k].candidate;
    }
    JoinAvoids(lines, "\n", '$');
    assert Insertion(candidates) == SetupActive + "\n" + Join(lines, "\n");
  }

  /** mergeDescription(description, candidates) */
  function MergeDescription(d: Description, candidates: seq<IceCandidate>): (r: Description)
    ensures r.sdpType == d.sdpType
    ensures r.sdp.None? <==> d.sdp.None?
  {
    Description(d.sdpType,
      match d.sdp
      case None => None
      case Some(s) => Some(Replace(s, SetupActive, Insertion(candidates))))
  }

  /** What mergeDescription does to a description: the `type` is kept, an
      undefined `sdp` stays undefined, an SDP without `a=setup:active` is
      returned as is, and otherwise the text around the first marker is kept
      and the marker is followed by a newline and the candidate lines. */
  lemma MergeShape(d: Description, candidates: seq<IceCandidate>)
    requires DollarFree(candidates)
    ensures MergeDescription(d, candidates).sdpType == d.sdpType
    ensures d.sdp.None? ==> MergeDescription(d, candidates).sdp.None?
    ensures d.sdp.Some? && IndexOf(d.sdp.value, SetupActive).None? ==> MergeDescription(d, candidates) == d
    ensures d.sdp.Some? && IndexOf(d.sdp.value, SetupActive).Some? ==>
      var s, i := d.sdp.value, IndexOf(d.sdp.value, SetupActive).value;
      MergeDescription(d, candidates).sdp ==
        Some(s[..i] + SetupActive + "\n" + Join(CandidateLines(candidates), "\n") + s[i + |SetupActive|..])
  {
    if d.sdp.Some? && IndexOf(d.sdp.value, SetupActive).Some? {
      var s, i := d.sdp.value, IndexOf(d.sdp.value, SetupActive).value;
      var rep := Insertion(candidates);
      InsertionLiteral(candidates);
      ReplaceLiteral(s, SetupActive, rep, i);
      assert MergeDescription(d, candidates).sdp == Some(s[..i] + rep + s[i + |SetupActive|..]);
      assert s[..i] + rep + s[i + |SetupActive|..]
          == s[..i] + SetupActive + "\n" + Join(CandidateLines(candidates), "\n") + s[i + |SetupActive|..];
    }
  }

  /** With no candidates, only a newline is added after the marker. */
  lemma MergeNoCandidates(d: Description, i: nat)
    requires d.sdp.Some? && IndexOf(d.sdp.value, SetupActive) == Some(i)
    ensures MergeDescription(d, []).sdp ==
      Some(d.sdp.value[..i] + SetupActive + "\n" + d.sdp.value[i + |SetupActive|..])
  {
    var s := d.sdp.value;
    assert Join(CandidateLines([]), "\n") == "";
    assert Insertion([]) == SetupActive + "\n";
    InsertionLiteral([]);
    ReplaceLiteral(s, SetupActive, Insertion([]), i);
    assert MergeDescription(d, []).sdp == Some(s[..i] + Insertion([]) + s[i + |SetupActive|..]);
    assert s[..i] + Insertion([]) + s[i + |SetupActive|..] == s[..i] + SetupActive + "\n" + s[i + |SetupActive|..];
  }

  /** The first occurrence of `pat` depends only on the text up to the end
      of that occurrence. */
  lemma IndexOfPrefix(s: string, r: string, pat: string, i: nat)
    requires IndexOf(s, pat) == Some(i)
    requires i + |pat| <= |r| && r[..i + |pat|] == s[..i + |pat|]
    ensures IndexOf(r, pat) == Some(i)
  {
    var m := |pat|;
    assert r[i..i + m] == s[i..i + m] by {
      assert r[i..i + m] == r[..i + m][i..];
      assert s[i..i + m] == s[..i + m][i..];
    }
    forall j | 0 <= j < i
      ensures !OccursAt(r, pat, j)
    {
      assert !OccursAt(s, pat, j);
      assert r[j..j + m] == s[j..j + m] by {
        forall t | j <= t < j + m ensures r[t] == s[t] {
          assert r[t] == r[..i + m][t];
        }
      }
    }
    IndexOfIsFirst(r, pat, i);
  }

  /** Candidate strings without a newline give candidate lines without one. */
  lemma CandidateLinesSingle(candidates: seq<IceCandidate>)
    requires forall k :: 0 <= k < |candidates| ==> '\n' !in candidates[k].candidate
    ensures forall k :: 0 <= k < |candidates| ==> '\n' !in CandidateLines(candidates)[k]
  {
    var lines := CandidateLines(candidates);
    forall k | 0 <= k < |lines|
      ensures '\n' !in lines[k]
    {
      assert lines[k] == "a=" + candidates[k].candidate;
    }
  }

  /** The merged SDP starts with the original's text up to the end of its
      first `a=setup:active`. */
  lemma MergeHead(d: Description, candidates: seq<IceCandidate>, i: nat)
    requires DollarFree(candidates)
    requires d.sdp.Some? && IndexOf(d.sdp.value, SetupActive) == Some(i)
    ensures MergeDescription(d, candidates).sdp.Some?
    ensures i + |SetupActive| <= |MergeDescription(d, candidates).sdp.value|
    ensures MergeDescription(d, candidates).sdp.value[..i + |SetupActive|] == d.sdp.value[..i + |SetupActive|]
    ensures MergeDescription(d, candidates).sdp.value ==
      d.sdp.value[..i + |SetupActive|] + "\n" + Join(CandidateLines(candidates), "\n") + d.sdp.value[i + |SetupActive|..]
  {
    var s := d.sdp.value;
    var m := |SetupActive|;
    var head := s[..i] + SetupActive;
    var full := s[..i] + SetupActive + "\n" + Join(CandidateLines(candidates), "\n") + s[i + m..];
    assert MergeDescription(d, candidates).sdp == Some(full) by {
      MergeShape(d, candidates);
    }
    assert s[..i + m] == head by {
      assert OccursAt(s, SetupActive, i);
      assert s[..i + m] == s[..i] + s[i..i + m];
    }
    forall k | 0 <= k < i + m
      ensures full[k] == head[k]
    {
    }
    assert full[..i + m] == head;
  }

  /** The first `a=setup:active` of the merged SDP is where it was in the
      original. */
  lemma MergeKeepsMarker(d: Description, candidates: seq<IceCandidate>, i: nat)
    requires DollarFree(candidates)
    requires d.sdp.Some? && IndexOf(d.sdp.value, SetupActive) == Some(i)
    ensures MergeDescription(d, candidates).sdp.Some?
    ensures IndexOf(MergeDescription(d, candidates).sdp.value, SetupActive) == Some(i)
  {
    MergeHead(d, candidates, i);
    IndexOfPrefix(d.sdp.value, MergeDescription(d, candidates).sdp.value, SetupActive, i);
  }

  /** In the merged SDP the first `a=setup:active` is where it was, and the
      original text is kept whole around a block inserted right after the
      marker: a newline, then the candidate lines, which split on newlines
      give back exactly one `a=<candidate>` line per candidate, in order. */
  lemma MergeKeepsMarkerAndLines(d: Description, candidates: seq<IceCandidate>, i: nat)
    requires DollarFree(candidates)
    requires candidates != []
    requires forall k :: 0 <= k < |candidates| ==> '\n' !in candidates[k].candidate
    requires d.sdp.Some? && IndexOf(d.sdp.value, SetupActive) == Some(i)
    ensures MergeDescription(d, candidates).sdp.Some?
    ensures IndexOf(MergeDescription(d, candidates).sdp.value, SetupActive) == Some(i)
    ensures var s, m := d.sdp.value, |SetupActive|;
      MergeDescription(d, candidates).sdp.value == s[..i + m] + "\n" + Join(CandidateLines(candidates), "\n") + s[i + m..]
    ensures Split(Join(CandidateLines(candidates), "\n"), '\n') == CandidateLines(candidates)
  {
    MergeHead(d, candidates, i);
    MergeKeepsMarker(d, candidates, i);
    CandidateLinesSingle(candidates);
    SplitJoin(CandidateLines(candidates), '\n');
  }
}
