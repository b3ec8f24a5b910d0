/**
 * The header size limit: which bytes the parser counts as header bytes, where it starts counting afresh, and what
 * the count over a stream comes to. Body bytes are never counted.
 */
module HeaderCount {
  import opened Chars
  import opened HttpParser
  import opened ByteStream

  /** `HTTP_MAX_HEADER_SIZE`. */
  const MAX_HEADER_SIZE: nat := 80 * 1024

  /** Whether a `case` sets the header size counter to 0. */
  predicate ResetsCount(p: Parser, e: Effect) {
    !e.ctl.Fail? && (p.state.SHeadersDone? || p.state.SChunkSizeAlmostDone? || p.state.SChunkDataDone?)
  }

  /** Whether a byte, with all its `reexecute` jumps, sets the counter to 0. */
  predicate Resets(cb: Callbacks, p: Parser, ch: char)
    requires Inv(p) && p.errno.OK?
    decreases Rank(p.state)
  {
    var e := Case(cb, p, false, ch);
    if e.ctl.Again? then Resets(cb, e.p, ch) else ResetsCount(p, e)
  }

  /** A parser that goes on, at a byte that counts as a header byte. */
  predicate Counts(q: Run) { !q.halted && q.p.errno.OK? && ParsingHeader(q.p.state) }

  /** The counter after one more byte. */
  function CountByte(cb: Callbacks, c: nat, q: Run, ch: char): (r: nat)
    requires Inv(q.p)
    ensures r <= c + 1
  {
    if q.halted || !q.p.errno.OK? then c
    else if Resets(cb, q.p, ch) then 0
    else if Counts(q) then c + 1
    else c
  }

  /** The counter after the bytes `s`, if they arrive in one slice that ends between two lines. */
  function Count(cb: Callbacks, strict: bool, c: nat, q: Run, s: string): (r: nat)
    requires Inv(q.p)
    ensures r <= c + |s|
  {
    if s == "" then c
    else CountByte(cb, Count(cb, strict, c, q, s[..|s| - 1]), Fold(cb, strict, q, s[..|s| - 1]), s[|s| - 1])
  }

  /** The name or the value of a header line is open. */
  predicate LineOpen(s: State) { s.SHeaderField? || s.SHeaderValue? }

  /** The slice `s` ends inside a name or value, at a byte that continued it. */
  ghost predicate Continued(cb: Callbacks, q: Run, s: string)
    requires Inv(q.p)
  {
    s != "" &&
    var r := Fold(cb, false, q, s);
    Counts(r) && LineOpen(r.p.state) && Fold(cb, false, q, s[..|s| - 1]).p.state == r.p.state
  }

  /** The counter after a slice: one byte more is counted where the slice ends inside a name or value. */
  ghost function Tally(cb: Callbacks, c: nat, q: Run, s: string): (r: nat)
    requires Inv(q.p)
    ensures Count(cb, false, c, q, s) <= r <= Count(cb, false, c, q, s) + 1
  {
    Count(cb, false, c, q, s) + if Continued(cb, q, s) then 1 else 0
  }

  /** Byte `i` of the slice is a header byte for which there is no room. */
  ghost predicate NoRoom(cb: Callbacks, c: nat, q: Run, s: string, i: nat)
    requires Inv(q.p)
  {
    i < |s| && Counts(Fold(cb, false, q, s[..i])) && Count(cb, false, c, q, s[..i]) >= MAX_HEADER_SIZE
  }

  /** The slice passes the header size limit. */
  ghost predicate Overfull(cb: Callbacks, c: nat, q: Run, s: string)
    requires Inv(q.p)
  {
    Tally(cb, c, q, s) > MAX_HEADER_SIZE || exists i: nat :: NoRoom(cb, c, q, s, i)
  }

  /** There was room for every header byte before byte `n`. */
  ghost predicate Roomy(cb: Callbacks, c: nat, q: Run, s: string, n: nat)
    requires Inv(q.p)
  {
    forall i: nat :: i < n ==> !NoRoom(cb, c, q, s, i)
  }

  // ---------------------------------------------------------------- counting along a stream

  lemma {:induction false} CountSnoc(cb: Callbacks, strict: bool, c: nat, q: Run, s: string, ch: char)
    requires Inv(q.p)
    ensures Count(cb, strict, c, q, s + [ch]) == CountByte(cb, Count(cb, strict, c, q, s), Fold(cb, strict, q, s), ch)
  {
    assert (s + [ch])[..|s|] == s;
  }

  lemma {:induction false} CountPrefix(cb: Callbacks, strict: bool, c: nat, q: Run, s: string, i: nat)
    requires Inv(q.p) && i < |s|
    ensures Count(cb, strict, c, q, s[..i + 1]) ==
            CountByte(cb, Count(cb, strict, c, q, s[..i]), Fold(cb, strict, q, s[..i]), s[i])
  {
    assert s[..i + 1] == s[..i] + [s[i]];
    CountSnoc(cb, strict, c, q, s[..i], s[i]);
  }

  lemma {:induction false} CountConcat(cb: Callbacks, strict: bool, c: nat, q: Run, s: string, t: string)
    requires Inv(q.p)
    ensures Count(cb, strict, c, q, s + t) ==
            Count(cb, strict, Count(cb, strict, c, q, s), Fold(cb, strict, q, s), t)
    decreases |t|
  {
    hide Fold, CountByte;
    if t == "" {
      assert s + t == s;
    } else {
      var n := |t| - 1;
      CountConcat(cb, strict, c, q, s, t[..n]);
      assert s + t == (s + t[..n]) + [t[n]];
      CountSnoc(cb, strict, c, q, s + t[..n], t[n]);
      FoldConcat(cb, strict, q, s, t[..n]);
    }
  }

  /** A parser that has stopped counts nothing. */
  lemma {:induction false} CountStopped(cb: Callbacks, strict: bool, c: nat, q: Run, s: string)
    requires Inv(q.p) && (q.halted || !q.p.errno.OK?)
    ensures Count(cb, strict, c, q, s) == c
    decreases |s|
  {
    hide Fold, Resets;
    if s != "" {
      CountStopped(cb, strict, c, q, s[..|s| - 1]);
      FoldStopped(cb, strict, q, s[..|s| - 1]);
    }
  }

  // ---------------------------------------------------------------- lines and bodies

  /** Inside a name, a value or a body nothing resets the counter. */
  lemma {:induction false} NoReset(cb: Callbacks, p: Parser, ch: char)
    requires Inv(p) && p.errno.OK? && (LineOpen(p.state) || p.state.SMessageDone? || BodyRunState(p.state))
    ensures !Resets(cb, p, ch)
  {
    hide Case, Resets;
    if LineOpen(p.state) { LineNoReset(cb, p, ch); } else { DoneNoReset(cb, p, ch); }
  }

  lemma {:induction false} LineNoReset(cb: Callbacks, p: Parser, ch: char)
    requires Inv(p) && p.errno.OK? && LineOpen(p.state)
    ensures !Resets(cb, p, ch)
  {
    hide ValueByte, FieldStep, StartCase, UrlCase, ProtocolCase, VersionCase, DiscardCase, EndCase, BodyCase;
    if p.state.SHeaderField? {
      assert Case(cb, p, false, ch) == FieldCase(p, ch);
    } else {
      var e := Case(cb, p, false, ch);
      assert e == ValueCase(p, false, ch);
      if e.ctl.Again? { assert Case(cb, e.p, false, ch) == ValueEdgeCase(e.p, ch); }
    }
  }

  lemma {:induction false} DoneNoReset(cb: Callbacks, p: Parser, ch: char)
    requires Inv(p) && p.errno.OK? && (p.state.SMessageDone? || BodyRunState(p.state))
    ensures !Resets(cb, p, ch)
  {
    hide StartCase, UrlCase, ProtocolCase, VersionCase, FieldCase, DiscardCase, ValueEdgeCase, ValueCase, SizeCase;
    if p.state.SMessageDone? {
      assert Case(cb, p, false, ch) == EndCase(cb, p, ch);
    } else {
      var e := Case(cb, p, false, ch);
      assert e == BodyCase(p, ch) == DataCase(p, ch);
      if e.ctl.Again? { assert Case(cb, e.p, false, ch) == EndCase(cb, e.p, ch); }
    }
  }

  /** All of `s` stays in the name or value in which the run stands. */
  ghost predicate InLine(cb: Callbacks, q: Run, s: string)
    requires Inv(q.p)
  {
    LineOpen(q.p.state) &&
    forall i :: 0 <= i <= |s| ==> var r := Fold(cb, false, q, s[..i]); r.p.state == q.p.state && Counts(r)
  }

  /** Every byte of a name or a value counts. */
  lemma {:induction false} LineCount(cb: Callbacks, c: nat, q: Run, s: string)
    requires Inv(q.p) && InLine(cb, q, s)
    ensures Count(cb, false, c, q, s) == c + |s|
    ensures s != "" ==> Tally(cb, c, q, s) == c + |s| + 1
    decreases |s|
  {
    hide Fold, Resets;
    assert s[..|s|] == s;
    if s != "" {
      var n := |s| - 1;
      forall i | 0 <= i <= n
        ensures s[..n][..i] == s[..i]
      {
      }
      LineCount(cb, c, q, s[..n]);
      NoReset(cb, Fold(cb, false, q, s[..n]).p, s[n]);
    }
  }

  /** No byte of a body counts. */
  lemma {:induction false} BodyCount(cb: Callbacks, strict: bool, c: nat, q: Run, s: string)
    requires Inv(q.p) && q.p.errno.OK? && !q.halted && BodyRunState(q.p.state)
    requires forall i :: 0 <= i < |s| ==> BodyRunState(Fold(cb, strict, q, s[..i]).p.state)
    ensures Count(cb, strict, c, q, s) == c
    decreases |s|
  {
    hide Fold, Resets;
    if s != "" {
      var n := |s| - 1;
      forall i | 0 <= i <= n
        ensures s[..n][..i] == s[..i]
      {
      }
      BodyCount(cb, strict, c, q, s[..n]);
      var r := Fold(cb, strict, q, s[..n]);
      if !r.halted && r.p.errno.OK? { NoReset(cb, r.p, s[n]); }
    }
  }
}
