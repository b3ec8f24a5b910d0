/**
 * The meaning of a byte stream to the parser, one byte at a time: what parser state it leads to and what the
 * callbacks have been told, with adjacent data callbacks of one kind joined.
 */
module ByteStream {
  import opened Chars
  import opened HttpParser

  /** Whether the last callback in `log` delivered data of kind `k`. */
  predicate LastIs(log: seq<Event>, k: Kind) {
    |log| > 0 && log[|log| - 1].Data? && log[|log| - 1].kind == k
  }

  /** `log` after one more callback, where data joins a preceding piece of the same kind. */
  function Emit(log: seq<Event>, e: Event): (r: seq<Event>)
    ensures e.Data? ==> LastIs(r, e.kind)
  {
    if e.Data? && LastIs(log, e.kind) then
      log[..|log| - 1] + [Data(e.kind, log[|log| - 1].bytes + e.bytes)]
    else log + [e]
  }

  function EmitAll(log: seq<Event>, es: seq<Event>): seq<Event> {
    if es == [] then log else Emit(EmitAll(log, es[..|es| - 1]), es[|es| - 1])
  }

  /** A callback log with adjacent data callbacks of one kind joined. */
  function Merged(raw: seq<Event>): seq<Event> { EmitAll([], raw) }

  /** `log` after data `s`, or unchanged if there is none. */
  function EmitSlice(log: seq<Event>, k: Kind, s: string): seq<Event> {
    if s == "" then log else Emit(log, Data(k, s))
  }

  /** The first byte of data of a kind. */
  lemma {:induction false} EmitStarts(log: seq<Event>, k: Kind, c: char)
    requires !LastIs(log, k)
    ensures Emit(log, Data(k, [c])) == log + [Data(k, [c])]
  {
  }

  /** One more byte of data of a kind. */
  lemma {:induction false} EmitGrows(log: seq<Event>, k: Kind, s: string, c: char)
    ensures Emit(log + [Data(k, s)], Data(k, [c])) == log + [Data(k, s + [c])]
  {
    assert (log + [Data(k, s)])[..|log|] == log;
  }

  lemma {:induction false} EmitTwice(log: seq<Event>, k: Kind, s: string, t: string)
    ensures Emit(Emit(log, Data(k, s)), Data(k, t)) == Emit(log, Data(k, s + t))
  {
    if LastIs(log, k) {
      var b := log[|log| - 1].bytes;
      assert b + (s + t) == b + s + t;
    }
  }

  lemma {:induction false} EmitSliceExtend(log: seq<Event>, k: Kind, s: string, t: string)
    ensures EmitSlice(EmitSlice(log, k, s), k, t) == EmitSlice(log, k, s + t)
  {
    if s == "" {
      assert s + t == t;
    } else if t == "" {
      assert s + t == s;
    } else {
      EmitTwice(log, k, s, t);
    }
  }

  /** Delivering nothing changes nothing once data of that kind came last. */
  lemma {:induction false} EmitNothing(log: seq<Event>, k: Kind)
    requires LastIs(log, k)
    ensures Emit(log, Data(k, "")) == log
  {
    var b := log[|log| - 1].bytes;
    assert b + "" == b;
  }

  lemma {:induction false} EmitAllAppend(log: seq<Event>, es: seq<Event>, e: Event)
    ensures EmitAll(log, es + [e]) == Emit(EmitAll(log, es), e)
  {
    assert (es + [e])[..|es|] == es;
  }

  lemma {:induction false} EmitAllConcat(log: seq<Event>, a: seq<Event>, b: seq<Event>)
    ensures EmitAll(log, a + b) == EmitAll(EmitAll(log, a), b)
    decreases |b|
  {
    if b == [] {
      assert a + b == a;
    } else {
      var n := |b| - 1;
      EmitAllConcat(log, a, b[..n]);
      assert a + b == (a + b[..n]) + [b[n]];
      EmitAllAppend(log, a + b[..n], b[n]);
    }
  }

  /**
   * A run: the parser, the joined callback log, whether the `memchr` skip of a header value is under way,
   * whether the parser has returned early, and how many bytes it has taken in all.
   */
  datatype Run = Run(p: Parser, log: seq<Event>, checked: bool, halted: bool, consumed: nat)

  /** The start of the next slice of input. */
  function Resume(q: Run): Run { q.(checked := false, halted := false) }

  /** A slice that starts in the middle of a name, a value or a URL continues the data delivered last. */
  predicate RunInv(q: Run) {
    Inv(q.p) &&
    (!Failed(q.p) ==>
       && (q.p.state.SHeaderField? ==> LastIs(q.log, Field))
       && (q.p.state.SHeaderValue? ==> LastIs(q.log, Value))
       && (UrlState(q.p.state) ==> LastIs(q.log, Url)))
  }

  /** The log after the effect `r` of one `case` on byte `ch`. */
  function Noted(log: seq<Event>, r: Effect, ch: char): seq<Event> {
    EmitAll(if r.data.Some? then Emit(log, Data(r.data.value, [ch])) else log, r.notes)
  }

  /** A byte after which the parser skips to the end of a general header value without checking. */
  predicate StartsSkip(p: Parser, r: Effect) {
    p.state.SHeaderValue? && p.hs.HGeneral? && r.p.state.SHeaderValue?
  }

  /** One byte with all its `reexecute` jumps. `strict` checks every byte of a header value. */
  function Drive(cb: Callbacks, strict: bool, q: Run, ch: char): (r: Run)
    requires Inv(q.p) && q.p.errno.OK?
    ensures Inv(r.p)
    decreases Rank(q.p.state)
  {
    var e := Case(cb, q.p, q.checked && !strict, ch);
    var log := Noted(q.log, e, ch);
    match e.ctl
    case Again => Drive(cb, strict, Run(e.p, log, false, q.halted, q.consumed), ch)
    case Next => Run(e.p, log, StartsSkip(q.p, e) && !strict, q.halted, q.consumed + 1)
    case Fail => Run(e.p, log, false, true, q.consumed)
    case Return(advance) => Run(e.p, log, false, true, q.consumed + if advance then 1 else 0)
  }

  /** One byte of input; a parser that stopped or is in error ignores it. */
  function Step(cb: Callbacks, strict: bool, q: Run, ch: char): (r: Run)
    requires Inv(q.p)
    ensures Inv(r.p)
  {
    if q.halted || !q.p.errno.OK? then q else Drive(cb, strict, q, ch)
  }

  /** The run over one slice of input. */
  function Fold(cb: Callbacks, strict: bool, q: Run, s: string): (r: Run)
    requires Inv(q.p)
    ensures Inv(r.p)
  {
    if s == "" then q else Step(cb, strict, Fold(cb, strict, q, s[..|s| - 1]), s[|s| - 1])
  }

  lemma {:induction false} FoldSnoc(cb: Callbacks, strict: bool, q: Run, s: string, c: char)
    requires Inv(q.p)
    ensures Fold(cb, strict, q, s + [c]) == Step(cb, strict, Fold(cb, strict, q, s), c)
  {
    assert (s + [c])[..|s|] == s;
  }

  lemma {:induction false} FoldPrefix(cb: Callbacks, strict: bool, q: Run, s: string, i: nat)
    requires Inv(q.p) && i < |s|
    ensures Fold(cb, strict, q, s[..i + 1]) == Step(cb, strict, Fold(cb, strict, q, s[..i]), s[i])
  {
    assert s[..i + 1] == s[..i] + [s[i]];
    FoldSnoc(cb, strict, q, s[..i], s[i]);
  }

  lemma {:induction false} FoldConcat(cb: Callbacks, strict: bool, q: Run, s: string, t: string)
    requires Inv(q.p)
    ensures Fold(cb, strict, q, s + t) == Fold(cb, strict, Fold(cb, strict, q, s), t)
    decreases |t|
  {
    hide Step;
    if t == "" {
      assert s + t == s;
    } else {
      var n := |t| - 1;
      FoldConcat(cb, strict, q, s, t[..n]);
      assert s + t == (s + t[..n]) + [t[n]];
      FoldSnoc(cb, strict, q, s + t[..n], t[n]);
    }
  }

  /** Once the parser has stopped, the rest of the slice is ignored. */
  lemma {:induction false} FoldStopped(cb: Callbacks, strict: bool, q: Run, s: string)
    requires Inv(q.p) && (q.halted || !q.p.errno.OK?)
    ensures Fold(cb, strict, q, s) == q
    decreases |s|
  {
    if s != "" { FoldStopped(cb, strict, q, s[..|s| - 1]); }
  }

  /** A byte that is data of kind `k`. */
  lemma {:induction false} StepTake(cb: Callbacks, strict: bool, q: Run, ch: char, p: Parser, k: Kind)
    requires Inv(q.p) && q.p.errno.OK? && !q.halted
    requires Case(cb, q.p, q.checked && !strict, ch) == Take(p, k)
    ensures Step(cb, strict, q, ch) ==
            Run(p, Emit(q.log, Data(k, [ch])), StartsSkip(q.p, Take(p, k)) && !strict, false, q.consumed + 1)
  {
    hide Case;
  }

  /** A byte that only moves the parser on. */
  lemma {:induction false} StepGo(cb: Callbacks, strict: bool, q: Run, ch: char, p: Parser, flush: Option<Kind>)
    requires Inv(q.p) && q.p.errno.OK? && !q.halted && !p.state.SHeaderValue?
    requires Case(cb, q.p, q.checked && !strict, ch) == Effect(p, None, flush, [], Next)
    ensures Step(cb, strict, q, ch) == Run(p, q.log, false, false, q.consumed + 1)
  {
    hide Case;
  }

  /** A byte seen once more after a `reexecute`. */
  lemma {:induction false} StepAgain(cb: Callbacks, strict: bool, q: Run, ch: char, e: Effect)
    requires Inv(q.p) && q.p.errno.OK? && !q.halted
    requires Case(cb, q.p, q.checked && !strict, ch) == e && e.ctl.Again?
    ensures Inv(e.p) && e.p.errno.OK?
    ensures Step(cb, strict, q, ch) == Step(cb, strict, Run(e.p, Noted(q.log, e, ch), false, false, q.consumed), ch)
  {
    hide Case;
  }

  // ---------------------------------------------------------------- runs keep RunInv

  lemma {:induction false} DriveKeepsRunInv(cb: Callbacks, strict: bool, q: Run, ch: char)
    requires RunInv(q) && q.p.errno.OK?
    ensures RunInv(Drive(cb, strict, q, ch))
    decreases Rank(q.p.state)
  {
    var e := Case(cb, q.p, q.checked && !strict, ch);
    if e.ctl.Again? {
      DriveKeepsRunInv(cb, strict, Run(e.p, Noted(q.log, e, ch), false, q.halted, q.consumed), ch);
    }
  }

  lemma {:induction false} FoldKeepsRunInv(cb: Callbacks, strict: bool, q: Run, s: string)
    requires RunInv(q)
    ensures RunInv(Fold(cb, strict, q, s))
    decreases |s|
  {
    if s != "" {
      FoldKeepsRunInv(cb, strict, q, s[..|s| - 1]);
      var q' := Fold(cb, strict, q, s[..|s| - 1]);
      if !q'.halted && q'.p.errno.OK? { DriveKeepsRunInv(cb, strict, q', s[|s| - 1]); }
    }
  }
}
