/**
 * Fragmentation independence: how the network cuts the byte stream does not change what the parser does, exactly
 * when every byte it skips in a header value is a legal header character. This holds of streams it takes and of
 * streams it rejects: the same error at the same byte.
 */
module Fragmentation {
  import opened Chars
  import opened HttpParser
  import opened ByteStream
  import opened HeaderCount
  import opened Execute

  predicate NonEmpty(parts: seq<string>) { forall i :: 0 <= i < |parts| ==> parts[i] != "" }

  /** The parser fed slice by slice. */
  function Runs(cb: Callbacks, q: Run, parts: seq<string>): (r: Run)
    requires Inv(q.p)
    ensures Inv(r.p)
  {
    if parts == [] then q
    else Fold(cb, false, Resume(Runs(cb, q, parts[..|parts| - 1])), parts[|parts| - 1])
  }

  /** The same parser state and error, callbacks and number of bytes taken. */
  predicate SameOutcome(a: Run, b: Run) { a.p == b.p && a.log == b.log && a.consumed == b.consumed }

  /** `a` and `b` differ at most in the `memchr` skip. */
  predicate Alike(a: Run, b: Run) { SameOutcome(a, b) && a.halted == b.halted }

  /** A run that took every byte of `s` without an error. */
  predicate TookAll(q0: Run, q: Run, s: string) { !Failed(q.p) && q.consumed == q0.consumed + |s| }

  /** The parser does not return in the middle of `s` without an error, as it does when a connection is upgraded. */
  predicate RunsOn(q0: Run, q: Run, s: string) { q.halted && q.p.errno.OK? ==> q.consumed == q0.consumed + |s| }

  /** Every byte the parser skips is a legal header character. */
  ghost predicate Clean(cb: Callbacks, q: Run, s: string)
    requires Inv(q.p)
  {
    forall i :: 0 <= i < |s| && Fold(cb, false, q, s[..i]).checked ==> IsHeaderChar(s[i])
  }

  /** Whether the parser does the same for every way of cutting `w` into slices. */
  ghost predicate CutsAgree(cb: Callbacks, q: Run, w: string)
    requires Inv(q.p)
  {
    forall parts :: NonEmpty(parts) && Join(parts) == w ==> SameOutcome(Runs(cb, q, parts), Fold(cb, false, q, w))
  }

  // ---------------------------------------------------------------- checked and unchecked bytes

  /** The skip matters only for an illegal byte of a general value. */
  lemma {:induction false} CaseChecked(cb: Callbacks, p: Parser, checked: bool, ch: char)
    requires Inv(p) && p.errno.OK?
    ensures Case(cb, p, checked, ch) == Case(cb, p, false, ch) ||
            (checked && p.state.SHeaderValue? && p.hs.HGeneral? && !IsHeaderChar(ch) &&
             Case(cb, p, false, ch) == Err(p, InvalidHeaderToken) && Case(cb, p, checked, ch).ctl.Next?)
  {
    hide StartCase, UrlCase, ProtocolCase, VersionCase, FieldCase, DiscardCase, ValueEdgeCase, EndCase, BodyCase;
  }

  /** A legal byte has the same effect whether it is skipped or not. */
  lemma {:induction false} StepSame(cb: Callbacks, a: Run, b: Run, ch: char)
    requires Inv(a.p) && a.p.errno.OK? && !a.halted && b == a.(checked := b.checked)
    requires (a.checked ==> b.checked) && (b.checked ==> IsHeaderChar(ch))
    ensures Step(cb, false, a, ch) == Step(cb, false, b, ch)
  {
    hide Case, IsHeaderChar;
    CaseChecked(cb, a.p, true, ch);
  }

  /** `a` and `b` have seen the same bytes, and `a` skips only what `b` skips. */
  predicate Follows(a: Run, b: Run) {
    SameOutcome(a, b) && (a.p.errno.OK? ==> a.halted == b.halted && (a.checked ==> b.checked))
  }

  lemma {:induction false} FoldFollows(cb: Callbacks, a: Run, b: Run, s: string)
    requires Inv(a.p) && Follows(a, b) && Clean(cb, b, s)
    ensures Follows(Fold(cb, false, a, s), Fold(cb, false, b, s))
    decreases |s|
  {
    hide Step, IsHeaderChar, Inv;
    if s != "" {
      var n := |s| - 1;
      CleanPrefix(cb, b, s, n);
      FoldFollows(cb, a, b, s[..n]);
      StepFollows(cb, Fold(cb, false, a, s[..n]), Fold(cb, false, b, s[..n]), s[n]);
    }
  }

  lemma {:induction false} StepFollows(cb: Callbacks, a: Run, b: Run, ch: char)
    requires Inv(a.p) && Follows(a, b) && (b.checked ==> IsHeaderChar(ch))
    ensures Follows(Step(cb, false, a, ch), Step(cb, false, b, ch))
  {
    hide Drive, IsHeaderChar, Inv;
    if b.p.errno.OK? && !b.halted { StepSame(cb, a, b, ch); }
  }

  lemma {:induction false} CleanPrefix(cb: Callbacks, q: Run, s: string, n: nat)
    requires Inv(q.p) && Clean(cb, q, s) && n <= |s|
    ensures Clean(cb, q, s[..n])
  {
    hide Fold;
    forall i | 0 <= i < n && Fold(cb, false, q, s[..n][..i]).checked
      ensures IsHeaderChar(s[..n][i])
    {
      assert s[..n][..i] == s[..i];
    }
  }

  lemma {:induction false} CleanConcat(cb: Callbacks, q: Run, s: string, t: string)
    requires Inv(q.p) && Clean(cb, q, s + t)
    ensures Clean(cb, q, s) && Clean(cb, Fold(cb, false, q, s), t)
  {
    hide Fold, IsHeaderChar;
    assert (s + t)[..|s|] == s;
    CleanPrefix(cb, q, s + t, |s|);
    forall i | 0 <= i < |t| && Fold(cb, false, Fold(cb, false, q, s), t[..i]).checked
      ensures IsHeaderChar(t[i])
    {
      FoldConcat(cb, false, q, s, t[..i]);
      assert (s + t)[..|s| + i] == s + t[..i];
      assert (s + t)[|s| + i] == t[i];
    }
  }

  // ---------------------------------------------------------------- slices against the whole

  lemma {:induction false} StepConsumes(cb: Callbacks, strict: bool, q: Run, ch: char)
    requires Inv(q.p)
    ensures var r := Step(cb, strict, q, ch);
            q.consumed <= r.consumed <= q.consumed + 1 && (q.halted || !q.p.errno.OK? ==> r == q) &&
            (r.consumed == q.consumed + 1 && !r.halted ==> r.p.errno.OK?)
  {
    hide Drive;
    if !(q.halted || !q.p.errno.OK?) { DriveConsumes(cb, strict, q, ch); }
  }

  lemma {:induction false} DriveConsumes(cb: Callbacks, strict: bool, q: Run, ch: char)
    requires Inv(q.p) && q.p.errno.OK?
    ensures var r := Drive(cb, strict, q, ch); q.consumed <= r.consumed <= q.consumed + 1
    ensures var r := Drive(cb, strict, q, ch); !q.halted && !r.halted ==> r.p.errno.OK?
    decreases Rank(q.p.state)
  {
    hide Case;
    var e := Case(cb, q.p, q.checked && !strict, ch);
    if e.ctl.Again? { DriveConsumes(cb, strict, Run(e.p, Noted(q.log, e, ch), false, q.halted, q.consumed), ch); }
  }

  lemma {:induction false} FoldConsumes(cb: Callbacks, strict: bool, q: Run, s: string)
    requires Inv(q.p)
    ensures var r := Fold(cb, strict, q, s);
            q.consumed <= r.consumed <= q.consumed + |s|
    decreases |s|
  {
    hide Step;
    if s != "" {
      var n := |s| - 1;
      FoldConsumes(cb, strict, q, s[..n]);
      StepConsumes(cb, strict, Fold(cb, strict, q, s[..n]), s[n]);
    }
  }

  /** A run that took all of `s + t`, with something in `t`, was still running after `s`. */
  lemma {:induction false} TookPrefix(cb: Callbacks, strict: bool, q: Run, s: string, t: string)
    requires Inv(q.p) && t != "" && TookAll(q, Fold(cb, strict, q, s + t), s + t)
    ensures var r := Fold(cb, strict, q, s); TookAll(q, r, s) && !r.halted && r.p.errno.OK?
  {
    hide Step;
    var r := Fold(cb, strict, q, s);
    FoldConcat(cb, strict, q, s, t);
    FoldConsumes(cb, strict, q, s);
    FoldConsumes(cb, strict, r, t);
    if r.halted || !r.p.errno.OK? { FoldStopped(cb, strict, r, t); }
  }

  /** A run that does not return early was still running, or in error, after `s` if something in `t` followed. */
  lemma {:induction false} RunsOnPrefix(cb: Callbacks, q: Run, s: string, t: string)
    requires Inv(q.p) && t != "" && RunsOn(q, Fold(cb, false, q, s + t), s + t)
    ensures var r := Fold(cb, false, q, s); (r.halted ==> !r.p.errno.OK?) && RunsOn(q, r, s)
  {
    hide Step;
    var r := Fold(cb, false, q, s);
    FoldConcat(cb, false, q, s, t);
    FoldConsumes(cb, false, q, s);
    if r.halted { FoldStopped(cb, false, r, t); }
  }

  /** A stream the parser does not return from early, with only legal bytes in what it skips. */
  ghost predicate Steady(cb: Callbacks, q: Run, w: string)
    requires Inv(q.p)
  {
    !q.checked && !q.halted && Clean(cb, q, w) && RunsOn(q, Fold(cb, false, q, w), w)
  }

  lemma {:induction false} SteadyPrefix(cb: Callbacks, q: Run, parts: seq<string>, n: nat)
    requires Inv(q.p) && NonEmpty(parts) && n <= |parts| && Steady(cb, q, Join(parts))
    ensures Steady(cb, q, Join(parts[..n]))
    decreases |parts| - n
  {
    hide Fold, Join, RunsOn, Clean;
    if n == |parts| {
      assert parts[..n] == parts;
    } else {
      SteadyPrefix(cb, q, parts, n + 1);
      JoinSnoc(parts, n);
      CleanConcat(cb, q, Join(parts[..n]), parts[n]);
      RunsOnPrefix(cb, q, Join(parts[..n]), parts[n]);
    }
  }

  lemma {:induction false} SplitFollows(cb: Callbacks, q: Run, parts: seq<string>)
    requires Inv(q.p) && NonEmpty(parts) && Steady(cb, q, Join(parts))
    ensures Follows(Runs(cb, q, parts), Fold(cb, false, q, Join(parts)))
    decreases |parts|
  {
    hide Step, Clean, RunsOn, IsHeaderChar;
    if parts != [] {
      var n := |parts| - 1;
      var s, t := Join(parts[..n]), parts[n];
      SteadyPrefix(cb, q, parts, n);
      SplitFollows(cb, q, parts[..n]);
      CleanConcat(cb, q, s, t);
      RunsOnPrefix(cb, q, s, t);
      FoldConcat(cb, false, q, s, t);
      FoldFollows(cb, Resume(Runs(cb, q, parts[..n])), Fold(cb, false, q, s), t);
    }
  }

  /**
   * However a clean stream is cut, the parser ends as it does for the whole stream: in the same state with the same
   * callbacks, or with the same error at the same byte.
   */
  lemma {:induction false} AnySplit(cb: Callbacks, q: Run, parts: seq<string>)
    requires Inv(q.p) && NonEmpty(parts) && Steady(cb, q, Join(parts))
    ensures SameOutcome(Runs(cb, q, parts), Fold(cb, false, q, Join(parts)))
  {
    hide Runs, Fold, Clean, RunsOn, Join;
    SplitFollows(cb, q, parts);
  }

  // ---------------------------------------------------------------- the run that checks every byte

  lemma {:induction false} DriveAlike(cb: Callbacks, a: Run, b: Run, ch: char)
    requires Inv(a.p) && Alike(a, b) && a.p.errno.OK?
    ensures Alike(Drive(cb, false, a, ch), Drive(cb, true, b, ch)) ||
            (a.checked && a.p.state.SHeaderValue? && !IsHeaderChar(ch) &&
             Drive(cb, true, b, ch).p.errno.InvalidHeaderToken?)
    ensures !Drive(cb, true, b, ch).checked
    decreases Rank(a.p.state)
  {
    hide Case, IsHeaderChar;
    CaseChecked(cb, a.p, a.checked, ch);
    var e := Case(cb, a.p, false, ch);
    if e.ctl.Again? {
      DriveAlike(cb, Run(e.p, Noted(a.log, e, ch), false, a.halted, a.consumed),
                 Run(e.p, Noted(b.log, e, ch), false, b.halted, b.consumed), ch);
    }
  }

  lemma {:induction false} StepAlike(cb: Callbacks, a: Run, b: Run, ch: char)
    requires Inv(a.p) && Alike(a, b) && !b.checked
    ensures Alike(Step(cb, false, a, ch), Step(cb, true, b, ch)) ||
            (a.checked && a.p.state.SHeaderValue? && !IsHeaderChar(ch) &&
             Step(cb, true, b, ch).p.errno.InvalidHeaderToken?)
    ensures !Step(cb, true, b, ch).checked
  {
    hide Case, IsHeaderChar, Drive;
    if !a.halted && a.p.errno.OK? { DriveAlike(cb, a, b, ch); }
  }

  /** A strict run that ends without an error is matched by the real one, whatever the slice started with. */
  lemma {:induction false} FoldAlike(cb: Callbacks, a: Run, b: Run, s: string)
    requires Inv(a.p) && Alike(a, b) && !b.checked && !Failed(Fold(cb, true, b, s).p)
    ensures Alike(Fold(cb, false, a, s), Fold(cb, true, b, s)) && !Fold(cb, true, b, s).checked
    decreases |s|
  {
    hide Step;
    if s != "" {
      var n := |s| - 1;
      StepFailsForGood(cb, true, Fold(cb, true, b, s[..n]), s[n]);
      FoldAlike(cb, a, b, s[..n]);
      StepAlike(cb, Fold(cb, false, a, s[..n]), Fold(cb, true, b, s[..n]), s[n]);
    }
  }

  lemma {:induction false} StepFailsForGood(cb: Callbacks, strict: bool, q: Run, ch: char)
    requires Inv(q.p)
    ensures Failed(q.p) ==> Failed(Step(cb, strict, q, ch).p)
  {
    hide Drive;
  }

  lemma {:induction false} CheckedInValue(cb: Callbacks, q: Run, s: string)
    requires Inv(q.p) && !q.checked && !q.halted
    ensures var r := Fold(cb, false, q, s);
            r.checked ==> r.p.errno.OK? && !r.halted && r.p.state.SHeaderValue? && r.p.hs.HGeneral?
    decreases |s|
  {
    hide Drive;
    if s != "" {
      var n := |s| - 1;
      CheckedInValue(cb, q, s[..n]);
      var r := Fold(cb, false, q, s[..n]);
      if !r.halted && r.p.errno.OK? { DriveChecked(cb, r, s[n]); }
    }
  }

  lemma {:induction false} DriveChecked(cb: Callbacks, q: Run, ch: char)
    requires Inv(q.p) && q.p.errno.OK? && !q.halted
    ensures var r := Drive(cb, false, q, ch);
            r.checked ==> r.p.errno.OK? && !r.halted && r.p.state.SHeaderValue? && r.p.hs.HGeneral?
    decreases Rank(q.p.state)
  {
    hide Case;
    var e := Case(cb, q.p, q.checked, ch);
    if e.ctl.Again? {
      DriveChecked(cb, Run(e.p, Noted(q.log, e, ch), false, q.halted, q.consumed), ch);
    } else if e.ctl.Next? && StartsSkip(q.p, e) {
      SkipStays(cb, q.p, q.checked, ch);
    }
  }

  lemma {:induction false} SkipStays(cb: Callbacks, p: Parser, checked: bool, ch: char)
    requires Inv(p) && p.errno.OK? && StartsSkip(p, Case(cb, p, checked, ch)) && Case(cb, p, checked, ch).ctl.Next?
    ensures Case(cb, p, checked, ch).p == p
  {
    hide ValueByte;
    assert Case(cb, p, checked, ch) == ValueCase(p, checked, ch);
  }

  /** A stream taken by the run that checks every byte is taken alike by the parser, and it is clean. */
  lemma {:induction false} StrictIsSteady(cb: Callbacks, q: Run, w: string)
    requires Inv(q.p) && !q.checked && !q.halted && TookAll(q, Fold(cb, true, q, w), w)
    ensures Alike(Fold(cb, false, q, w), Fold(cb, true, q, w)) && Steady(cb, q, w)
  {
    hide Step, Fold, IsHeaderChar;
    FoldAlike(cb, q, q, w);
    forall i | 0 <= i < |w| && Fold(cb, false, q, w[..i]).checked
      ensures IsHeaderChar(w[i])
    {
      StrictByte(cb, q, w, i);
      CheckedInValue(cb, q, w[..i]);
    }
  }

  /** Byte `i` of a header value went through the run that checks it. */
  lemma {:induction false} StrictByte(cb: Callbacks, q: Run, w: string, i: nat)
    requires Inv(q.p) && !q.checked && !q.halted && TookAll(q, Fold(cb, true, q, w), w) && i < |w|
    ensures Alike(Fold(cb, false, q, w[..i]), Fold(cb, true, q, w[..i]))
    ensures Fold(cb, false, q, w[..i]).p.state.SHeaderValue? ==> IsHeaderChar(w[i])
  {
    hide Step, Fold, IsHeaderChar;
    assert w == w[..i] + w[i..] && w[i..] == [w[i]] + w[i + 1..] && w == w[..i + 1] + w[i + 1..];
    TookPrefix(cb, true, q, w[..i], w[i..]);
    FoldAlike(cb, q, q, w[..i]);
    var s := Fold(cb, true, q, w[..i]);
    FoldConcat(cb, true, q, w[..i + 1], w[i + 1..]);
    FoldPrefix(cb, true, q, w, i);
    if s.p.state.SHeaderValue? && !IsHeaderChar(w[i]) {
      StrictRejects(cb, s, w[i]);
      FoldStopped(cb, true, Step(cb, true, s, w[i]), w[i + 1..]);
    }
  }

  /** A header value byte that is not a legal header character fails the run that checks every byte. */
  lemma {:induction false} StrictRejects(cb: Callbacks, q: Run, ch: char)
    requires Inv(q.p) && q.p.errno.OK? && !q.halted && q.p.state.SHeaderValue? && !IsHeaderChar(ch)
    ensures Failed(Step(cb, true, q, ch).p)
  {
    hide ValueByte;
    CaseInValue(cb, q.p, false, ch);
  }

  /** However a stream is cut that the checking run takes, the parser ends as that run does. */
  lemma {:induction false} StrictSplit(cb: Callbacks, q: Run, parts: seq<string>)
    requires Inv(q.p) && !q.checked && !q.halted && NonEmpty(parts)
    requires TookAll(q, Fold(cb, true, q, Join(parts)), Join(parts))
    ensures SameOutcome(Runs(cb, q, parts), Fold(cb, true, q, Join(parts)))
  {
    hide Fold, Runs, Steady;
    StrictIsSteady(cb, q, Join(parts));
    AnySplit(cb, q, parts);
  }

  // ---------------------------------------------------------------- the exact condition

  /** Where an illegal byte is skipped, a cut in front of it shows. */
  lemma {:induction false} CutShows(cb: Callbacks, q: Run, w: string, i: nat)
    requires Inv(q.p) && !q.checked && !q.halted && i < |w|
    requires Fold(cb, false, q, w[..i]).checked && !IsHeaderChar(w[i])
    ensures var parts := [w[..i], w[i..]];
            NonEmpty(parts) && Join(parts) == w && !SameOutcome(Runs(cb, q, parts), Fold(cb, false, q, w))
  {
    hide Step, Fold, IsHeaderChar;
    var s, t, ch := w[..i], w[i..], w[i];
    var r := Fold(cb, false, q, s);
    CheckedInValue(cb, q, s);
    FoldEmpty(cb, q);
    assert w[..0] == "";
    var parts := [s, t];
    TwoSlices(cb, q, s, t);
    assert s + t == w && t == [ch] + w[i + 1..];
    FoldConcat(cb, false, q, s, t);
    FoldConcat(cb, false, r, [ch], w[i + 1..]);
    FoldConcat(cb, false, Resume(r), [ch], w[i + 1..]);
    IllegalByte(cb, r, ch);
    FoldStopped(cb, false, Fold(cb, false, Resume(r), [ch]), w[i + 1..]);
    FoldConsumes(cb, false, Fold(cb, false, r, [ch]), w[i + 1..]);
  }

  lemma {:induction false} FoldEmpty(cb: Callbacks, q: Run)
    requires Inv(q.p)
    ensures forall strict :: Fold(cb, strict, q, "") == q
  {
  }

  lemma {:induction false} TwoSlices(cb: Callbacks, q: Run, s: string, t: string)
    requires Inv(q.p) && !q.checked && !q.halted
    ensures Runs(cb, q, [s, t]) == Fold(cb, false, Resume(Fold(cb, false, q, s)), t) && Join([s, t]) == s + t
  {
    hide Fold;
    var parts := [s, t];
    assert parts[..1] == [s] && [s][..0] == [];
    assert Runs(cb, q, [s]) == Fold(cb, false, Resume(q), s) && Resume(q) == q;
    assert "" + s == s && Join([s]) == s;
  }

  /** A byte that is no legal header character: skipped in the middle of a slice, an error at its start. */
  lemma {:induction false} IllegalByte(cb: Callbacks, q: Run, ch: char)
    requires Inv(q.p) && q.p.errno.OK? && !q.halted && q.checked && q.p.state.SHeaderValue? && q.p.hs.HGeneral?
    requires !IsHeaderChar(ch)
    ensures Fold(cb, false, q, [ch]).consumed == q.consumed + 1
    ensures var r := Fold(cb, false, Resume(q), [ch]);
            r.p.errno.InvalidHeaderToken? && r.halted && r.consumed == q.consumed
  {
    hide Step;
    assert "" + [ch] == [ch];
    assert Stretch(q, q.p, Value, "", true) == q;
    ValueByteTaken(cb, q, q.p, "", true, ch);
    var r := Resume(q);
    assert Stretch(r, r.p, Value, "", false) == r;
    ValueByteFails(cb, r, r.p, "", ch);
  }

  /**
   * Fragmentation independence and its exact condition. For every stream from which the parser does not return
   * early without an error: it does the same for every way of cutting the stream into slices, be that taking or
   * rejecting it, if and only if every byte it skips in the uncut stream is a legal header character.
   */
  lemma {:induction false} FragmentationIndependence(cb: Callbacks, q: Run, w: string)
    requires Inv(q.p) && !q.checked && !q.halted && RunsOn(q, Fold(cb, false, q, w), w)
    ensures Clean(cb, q, w) <==> CutsAgree(cb, q, w)
  {
    hide Step, Fold, Runs, IsHeaderChar, SameOutcome;
    if Clean(cb, q, w) {
      forall parts | NonEmpty(parts) && Join(parts) == w
        ensures SameOutcome(Runs(cb, q, parts), Fold(cb, false, q, w))
      {
        AnySplit(cb, q, parts);
      }
    }
    if CutsAgree(cb, q, w) {
      forall i | 0 <= i < |w| && Fold(cb, false, q, w[..i]).checked
        ensures IsHeaderChar(w[i])
      {
        if !IsHeaderChar(w[i]) { CutShows(cb, q, w, i); }
      }
    }
  }

  /** If every byte inside a header value is a legal header character, so is every byte that is skipped. */
  lemma {:induction false} LegalValues(cb: Callbacks, q: Run, w: string)
    requires Inv(q.p) && !q.checked && !q.halted
    requires forall i :: 0 <= i < |w| && Fold(cb, false, q, w[..i]).p.state.SHeaderValue? ==> IsHeaderChar(w[i])
    ensures Clean(cb, q, w)
  {
    hide Fold, IsHeaderChar;
    forall i | 0 <= i < |w| && Fold(cb, false, q, w[..i]).checked
      ensures IsHeaderChar(w[i])
    {
      CheckedInValue(cb, q, w[..i]);
    }
  }

  /**
   * The condition is needed: in the middle of any general header value, "b" and a control character pass together but
   * not apart.
   */
  lemma {:induction false} CutMatters(cb: Callbacks, q: Run)
    requires Inv(q.p) && q.p.errno.OK? && !q.checked && !q.halted && q.p.state.SHeaderValue? && q.p.hs.HGeneral?
    ensures var w := ['b', 1 as char];
            && Fold(cb, false, q, w).p == q.p && Fold(cb, false, q, w).consumed == q.consumed + 2
            && Runs(cb, q, [[w[0]], [w[1]]]).p.errno.InvalidHeaderToken?
  {
    hide Step;
    var w := ['b', 1 as char];
    FoldSnoc(cb, false, q, "", w[0]);
    FoldSnoc(cb, false, q, [w[0]], w[1]);
    assert "" + [w[0]] == [w[0]] && [w[0]] + [w[1]] == w;
    assert Stretch(q, q.p, Value, "", false) == q;
    ValueByteTaken(cb, q, q.p, "", false, w[0]);
    ValueByteTaken(cb, q, q.p, [w[0]], true, w[1]);
    var parts := [[w[0]], [w[1]]];
    assert parts[..1] == [[w[0]]] && parts[..1][..0] == [];
    assert Runs(cb, q, parts[..1]) == Fold(cb, false, q, [w[0]]) == Stretch(q, q.p, Value, [w[0]], true);
    var r := Resume(Runs(cb, q, parts[..1]));
    FoldSnoc(cb, false, r, "", w[1]);
    assert "" + [w[1]] == [w[1]];
    assert Stretch(r, r.p, Value, "", false) == r;
    ValueByteFails(cb, r, r.p, "", w[1]);
  }

  // ---------------------------------------------------------------- the header size counter over slices

  /** The counter after the slices. */
  ghost function RunsTally(cb: Callbacks, c: nat, q: Run, parts: seq<string>): nat
    requires Inv(q.p)
  {
    if parts == [] then c
    else
      var n := |parts| - 1;
      Tally(cb, RunsTally(cb, c, q, parts[..n]), Resume(Runs(cb, q, parts[..n])), parts[n])
  }

  /** Slice `n` passes the header size limit. */
  ghost predicate PassesLimit(cb: Callbacks, c: nat, q: Run, parts: seq<string>, n: nat)
    requires Inv(q.p)
  {
    n < |parts| && Overfull(cb, RunsTally(cb, c, q, parts[..n]), Resume(Runs(cb, q, parts[..n])), parts[n])
  }

  lemma {:induction false} TallySnoc(cb: Callbacks, c: nat, q: Run, parts: seq<string>, i: nat)
    requires Inv(q.p) && i < |parts|
    ensures RunsTally(cb, c, q, parts[..i + 1]) ==
            Tally(cb, RunsTally(cb, c, q, parts[..i]), Resume(Runs(cb, q, parts[..i])), parts[i])
  {
    hide Tally;
    assert parts[..i + 1][..i] == parts[..i];
  }

  /** A counter that starts higher ends at most as much higher, and at most twice as high if it starts so. */
  lemma {:induction false} CountMonotone(cb: Callbacks, strict: bool, c: nat, d: nat, q: Run, s: string)
    requires Inv(q.p) && c <= d
    ensures var m, n := Count(cb, strict, c, q, s), Count(cb, strict, d, q, s);
            m <= n <= m + (d - c) && (d <= 2 * c ==> n <= 2 * m)
    decreases |s|
  {
    hide Fold, Resets;
    if s != "" { CountMonotone(cb, strict, c, d, q, s[..|s| - 1]); }
  }

  lemma {:induction false} CountFollows(cb: Callbacks, c: nat, a: Run, b: Run, s: string)
    requires Inv(a.p) && Follows(a, b) && Clean(cb, b, s)
    ensures Count(cb, false, c, a, s) == Count(cb, false, c, b, s)
    decreases |s|
  {
    hide Fold, Resets, IsHeaderChar;
    if s != "" {
      var n := |s| - 1;
      CleanPrefix(cb, b, s, n);
      CountFollows(cb, c, a, b, s[..n]);
      FoldFollows(cb, a, b, s[..n]);
    }
  }

  /** A slice that ends inside a name or value ends with a byte that counted. */
  lemma {:induction false} ContinuedCounts(cb: Callbacks, c: nat, q: Run, s: string)
    requires Inv(q.p) && Continued(cb, q, s)
    ensures Count(cb, false, c, q, s) == Count(cb, false, c, q, s[..|s| - 1]) + 1
  {
    hide Fold, Resets, Step;
    var r := Fold(cb, false, q, s[..|s| - 1]);
    FoldPrefix(cb, false, q, s, |s| - 1);
    assert s[..|s|] == s;
    if r.halted || !r.p.errno.OK? { StepConsumes(cb, false, r, s[|s| - 1]); }
    NoReset(cb, r.p, s[|s| - 1]);
  }

  /**
   * What the slices add to the count: at most one byte each, and never more than the header bytes since the last
   * reset.
   */
  lemma {:induction false} TallyBound(cb: Callbacks, c: nat, q: Run, parts: seq<string>)
    requires Inv(q.p) && NonEmpty(parts) && Steady(cb, q, Join(parts))
    ensures var m, n := Count(cb, false, c, q, Join(parts)), RunsTally(cb, c, q, parts);
            m <= n <= m + |parts| && n <= 2 * m
    decreases |parts|
  {
    hide Step, Fold, Clean, RunsOn, Count, IsHeaderChar, Continued;
    if parts == [] {
      NothingCounted(cb, c, q, "");
    } else {
      var n := |parts| - 1;
      var s, t := Join(parts[..n]), parts[n];
      var a, b := Resume(Runs(cb, q, parts[..n])), Fold(cb, false, q, s);
      var x, y := Count(cb, false, c, q, s), RunsTally(cb, c, q, parts[..n]);
      SteadyPrefix(cb, q, parts, n);
      TallyBound(cb, c, q, parts[..n]);
      SplitFollows(cb, q, parts[..n]);
      CleanConcat(cb, q, s, t);
      RunsOnPrefix(cb, q, s, t);
      CountConcat(cb, false, c, q, s, t);
      CountFollows(cb, y, a, b, t);
      CountMonotone(cb, false, x, y, b, t);
      if Continued(cb, a, t) { ContinuedTwice(cb, x, y, a, b, t); }
    }
  }

  lemma {:induction false} ContinuedTwice(cb: Callbacks, x: nat, y: nat, a: Run, b: Run, t: string)
    requires Inv(a.p) && Follows(a, b) && Clean(cb, b, t) && Continued(cb, a, t) && x <= y <= 2 * x
    ensures Count(cb, false, y, a, t) + 1 <= 2 * Count(cb, false, x, b, t)
  {
    hide Fold, Count, Clean, Follows;
    var n := |t| - 1;
    ContinuedCounts(cb, x, a, t);
    ContinuedCounts(cb, y, a, t);
    CountMonotone(cb, false, x, y, a, t[..n]);
    CountFollows(cb, x, a, b, t);
  }

  /** Slice `n` stays within the limit if the header bytes do at each byte of it, with room for the cuts. */
  lemma {:induction false} SliceFits(cb: Callbacks, c: nat, q: Run, parts: seq<string>, n: nat)
    requires Inv(q.p) && NonEmpty(parts) && Steady(cb, q, Join(parts)) && n < |parts|
    requires forall i :: 0 <= i <= |parts[n]| ==>
               var m := Count(cb, false, c, q, Join(parts[..n]) + parts[n][..i]);
               m + n < MAX_HEADER_SIZE || 2 * m < MAX_HEADER_SIZE
    ensures !PassesLimit(cb, c, q, parts, n)
  {
    hide Step, Fold, Clean, RunsOn, Count, IsHeaderChar, Continued, Counts, Steady, Follows;
    var s, t := Join(parts[..n]), parts[n];
    var a, b := Resume(Runs(cb, q, parts[..n])), Fold(cb, false, q, s);
    var x, y := Count(cb, false, c, q, s), RunsTally(cb, c, q, parts[..n]);
    SteadyPrefix(cb, q, parts, n);
    TallyBound(cb, c, q, parts[..n]);
    SliceFollows(cb, q, parts, n);
    forall i | 0 <= i <= |t|
      ensures Count(cb, false, y, a, t[..i]) < MAX_HEADER_SIZE
    {
      CountConcat(cb, false, c, q, s, t[..i]);
      CleanPrefix(cb, b, t, i);
      CountFollows(cb, y, a, b, t[..i]);
      CountMonotone(cb, false, x, y, b, t[..i]);
    }
    assert t[..|t|] == t;
  }

  /** The run over a slice follows the run over the whole stream. */
  lemma {:induction false} SliceFollows(cb: Callbacks, q: Run, parts: seq<string>, n: nat)
    requires Inv(q.p) && NonEmpty(parts) && Steady(cb, q, Join(parts)) && n < |parts|
    ensures var b := Fold(cb, false, q, Join(parts[..n]));
            Follows(Resume(Runs(cb, q, parts[..n])), b) && Clean(cb, b, parts[n])
  {
    hide Fold, Runs, Clean, RunsOn, Join;
    SteadyPrefix(cb, q, parts, n);
    SteadyPrefix(cb, q, parts, n + 1);
    JoinSnoc(parts, n);
    SplitFollows(cb, q, parts[..n]);
    CleanConcat(cb, q, Join(parts[..n]), parts[n]);
    RunsOnPrefix(cb, q, Join(parts[..n]), parts[n]);
  }

  // ---------------------------------------------------------------- the parser object

  function Shift(q: Run, n: nat): Run { q.(consumed := q.consumed + n) }

  lemma {:induction false} DriveShift(cb: Callbacks, strict: bool, q: Run, n: nat, ch: char)
    requires Inv(q.p) && q.p.errno.OK?
    ensures Drive(cb, strict, Shift(q, n), ch) == Shift(Drive(cb, strict, q, ch), n)
    decreases Rank(q.p.state)
  {
    hide Case;
    var e := Case(cb, q.p, q.checked && !strict, ch);
    if e.ctl.Again? { DriveShift(cb, strict, Run(e.p, Noted(q.log, e, ch), false, q.halted, q.consumed), n, ch); }
  }

  /** The bytes taken before do not matter. */
  lemma {:induction false} FoldShift(cb: Callbacks, strict: bool, q: Run, n: nat, s: string)
    requires Inv(q.p)
    ensures Fold(cb, strict, Shift(q, n), s) == Shift(Fold(cb, strict, q, s), n)
    decreases |s|
  {
    hide Drive;
    if s != "" {
      FoldShift(cb, strict, q, n, s[..|s| - 1]);
      var r := Fold(cb, strict, q, s[..|s| - 1]);
      if !r.halted && r.p.errno.OK? { DriveShift(cb, strict, r, n, s[|s| - 1]); }
    }
  }

  lemma {:induction false} CountShift(cb: Callbacks, strict: bool, c: nat, q: Run, n: nat, s: string)
    requires Inv(q.p)
    ensures Count(cb, strict, c, Shift(q, n), s) == Count(cb, strict, c, q, s)
    decreases |s|
  {
    hide Fold, Resets;
    if s != "" {
      CountShift(cb, strict, c, q, n, s[..|s| - 1]);
      FoldShift(cb, strict, q, n, s[..|s| - 1]);
    }
  }

  /** Nor do they matter for the count and the limit. */
  lemma {:induction false} LimitShift(cb: Callbacks, c: nat, q: Run, n: nat, p: Parser, raw: seq<Event>, s: string)
    requires Inv(q.p)
    ensures Tally(cb, c, Shift(q, n), s) == Tally(cb, c, q, s)
    ensures Overfull(cb, c, Shift(q, n), s) <==> Overfull(cb, c, q, s)
    ensures Overflowed(cb, c, q, p, raw, s) ==> Overflowed(cb, c, Shift(q, n), p, raw, s)
  {
    hide Fold, Count, Undelivered, Merged;
    forall i | 0 <= i <= |s|
      ensures Fold(cb, false, Shift(q, n), s[..i]) == Shift(Fold(cb, false, q, s[..i]), n)
      ensures Count(cb, false, c, Shift(q, n), s[..i]) == Count(cb, false, c, q, s[..i])
    {
      FoldShift(cb, false, q, n, s[..i]);
      CountShift(cb, false, c, q, n, s[..i]);
    }
    assert s[..|s|] == s;
    NoRoomShift(cb, c, q, n, s);
  }

  lemma {:induction false} NoRoomShift(cb: Callbacks, c: nat, q: Run, n: nat, s: string)
    requires Inv(q.p)
    ensures forall i: nat :: NoRoom(cb, c, Shift(q, n), s, i) <==> NoRoom(cb, c, q, s, i)
  {
    hide Fold, Count;
    forall i: nat
      ensures NoRoom(cb, c, Shift(q, n), s, i) <==> NoRoom(cb, c, q, s, i)
    {
      if i < |s| {
        FoldShift(cb, false, q, n, s[..i]);
        CountShift(cb, false, c, q, n, s[..i]);
      }
    }
  }

  lemma {:induction false} RunsSnoc(cb: Callbacks, q: Run, parts: seq<string>, i: nat)
    requires Inv(q.p) && i < |parts|
    ensures Runs(cb, q, parts[..i + 1]) == Fold(cb, false, Resume(Runs(cb, q, parts[..i])), parts[i])
  {
    assert parts[..i + 1][..i] == parts[..i];
  }

  lemma {:induction false} RunsNothing(cb: Callbacks, c: nat, q: Run, parts: seq<string>)
    requires Inv(q.p)
    ensures Runs(cb, q, parts[..0]) == q && RunsTally(cb, c, q, parts[..0]) == c
  {
  }

  /** Slice `n` ended in a header overflow. */
  ghost predicate OverflowedAt(cb: Callbacks, c: nat, q: Run, parts: seq<string>, n: nat, p: Parser, raw: seq<Event>)
    requires Inv(q.p)
  {
    n < |parts| &&
    Overflowed(cb, RunsTally(cb, c, q, parts[..n]), Resume(Runs(cb, q, parts[..n])), p, raw, parts[n])
  }

  /** The parser's answer after the slices, for a counter that stood at `c`. */
  ghost predicate Answer(cb: Callbacks, c: nat, q: Run, parts: seq<string>, n: nat, p: Parser, nread: nat,
                         raw: seq<Event>,
                         parsed: nat)
    requires Inv(q.p) && n <= |parts|
  {
    && Agrees(p, raw, parsed, Runs(cb, q, parts[..n]))
    && (!Failed(p) ==> nread == RunsTally(cb, c, q, parts[..n]) && forall i: nat :: i < n ==>
         !PassesLimit(cb, c, q, parts, i))
  }

  /** One slice of the object against one slice of the run. */
  lemma {:induction false} SliceAnswered(cb: Callbacks, c: nat, q: Run, parts: seq<string>, i: nat, v: Run, d: nat,
                                         raw0: seq<Event>,
                                         parsed: nat, p: Parser, nread: nat, raw: seq<Event>, n: nat)
    requires Inv(q.p) && Inv(v.p) && i < |parts| && v == Run(v.p, Merged(raw0), false, false, 0)
    requires Answer(cb, c, q, parts, i, v.p, d, raw0, parsed)
    requires if v.p.errno.OK?
             then Overflowed(cb, d, v, p, raw, parts[i]) ||
                  (Agrees(p, raw, n, Fold(cb, false, v, parts[i])) &&
                   (!Failed(p) ==> nread == Tally(cb, d, v, parts[i]) && !Overfull(cb, d, v, parts[i])))
             else p == v.p && raw == raw0 && n == 0 &&
                  (!Failed(p) ==> nread == Tally(cb, d, v, parts[i]) && !Overfull(cb, d, v, parts[i]))
    ensures OverflowedAt(cb, c, q, parts, i, p, raw) || Answer(cb, c, q, parts, i + 1, p, nread, raw, parsed + n)
  {
    hide Fold, Runs, RunsTally, Overflowed, Tally, Overfull, Undelivered, Merged, Inv;
    var r := Runs(cb, q, parts[..i]);
    RunsSnoc(cb, q, parts, i);
    TallySnoc(cb, c, q, parts, i);
    if Failed(v.p) {
      FoldStopped(cb, false, Resume(r), parts[i]);
    } else {
      FoldShift(cb, false, v, parsed, parts[i]);
      LimitShift(cb, d, v, parsed, p, raw, parts[i]);
      assert Shift(v, parsed) == Resume(r);
      if !v.p.errno.OK? { FoldStopped(cb, false, Resume(r), parts[i]); }
    }
  }

  /**
   * The parser object fed a stream slice by slice. But for a header overflow, for which there must be more header
   * bytes than there is room for, it does what the run over the slices does; for a clean stream that is what the run
   * over the whole stream does, with the same callbacks, or with the same error at the same byte.
   */
  method ExecuteAll(parser: RequestParser, parts: seq<string>) returns (parsed: nat)
    requires parser.Valid() && parser.st.errno.OK? && NonEmpty(parts)
    requires forall i :: 0 <= i < |parts| ==> |parts[i]| < 0x8000_0000
    modifies parser
    ensures parser.Valid()
    ensures var cb, c, q := parser.cb, old(parser.nread), old(parser.View());
            || (exists n: nat :: OverflowedAt(cb, c, q, parts, n, parser.st, parser.log))
            || Answer(cb, c, q, parts, |parts|, parser.st, parser.nread, parser.log, parsed)
    ensures var q := old(parser.View());
            Steady(parser.cb, q, Join(parts)) && !parser.st.errno.HeaderOverflow? ==>
              Agrees(parser.st, parser.log, parsed, Fold(parser.cb, false, q, Join(parts)))
  {
    hide Fold, Merged, Step, Inv, Join, Runs, RunsTally, Steady, Undelivered, Overfull, Tally;
    ghost var q, c := parser.View(), parser.nread;
    parsed := 0;
    var i := 0;
    RunsNothing(parser.cb, c, q, parts);
    while i < |parts|
      invariant 0 <= i <= |parts| && parser.Valid()
      invariant || (exists n: nat :: OverflowedAt(parser.cb, c, q, parts, n, parser.st, parser.log))
                || Answer(parser.cb, c, q, parts, i, parser.st, parser.nread, parser.log, parsed)
    {
      ghost var v, d, raw := parser.View(), parser.nread, parser.log;
      var n := parser.Execute(parts[i]);
      if Answer(parser.cb, c, q, parts, i, v.p, d, raw, parsed) {
        SliceAnswered(parser.cb, c, q, parts, i, v, d, raw, parsed, parser.st, parser.nread, parser.log, n);
      }
      parsed, i := parsed + n, i + 1;
    }
    assert parts[..i] == parts;
    if Steady(parser.cb, q, Join(parts)) && !parser.st.errno.HeaderOverflow? { AnySplit(parser.cb, q, parts); }
  }
}
