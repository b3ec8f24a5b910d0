/**
 * `http_parser_execute`: the parser's loop over one slice of input, with its inner loops over names, values
 * and body bytes and its data marks, proved to compute the byte-by-byte run of module `ByteStream`.
 */
module Execute {
  import opened Chars
  import opened HttpParser
  import opened ByteStream
  import opened HeaderCount

  // ---------------------------------------------------------------- stretches of one kind of data

  /** The run after the bytes `s`, all data of kind `k`, left the parser in `p`. */
  function Stretch(q: Run, p: Parser, k: Kind, s: string, checked: bool): Run {
    Run(p, EmitSlice(q.log, k, s), checked, q.halted, q.consumed + |s|)
  }

  lemma {:induction false} InLineStart(cb: Callbacks, q: Run)
    requires Inv(q.p) && LineOpen(q.p.state) && Counts(q)
    ensures InLine(cb, q, "")
  {
  }

  lemma {:induction false} InLineSnoc(cb: Callbacks, q: Run, s: string, ch: char)
    requires Inv(q.p) && InLine(cb, q, s)
    requires var r := Fold(cb, false, q, s + [ch]); r.p.state == q.p.state && Counts(r)
    ensures InLine(cb, q, s + [ch])
  {
    hide Fold;
    forall i | 0 <= i <= |s|
      ensures (s + [ch])[..i] == s[..i]
    {
    }
    assert (s + [ch])[..|s| + 1] == s + [ch];
  }

  lemma {:induction false} InLinePrefix(cb: Callbacks, q: Run, s: string, n: nat)
    requires Inv(q.p) && InLine(cb, q, s) && n <= |s|
    ensures InLine(cb, q, s[..n])
  {
    hide Fold;
    forall i | 0 <= i <= n
      ensures s[..n][..i] == s[..i]
    {
    }
  }

  /** One more byte of a header name. */
  lemma {:induction false} FieldByte(cb: Callbacks, q0: Run, p: Parser, s: string, ch: char)
    requires Inv(q0.p) && Inv(p) && p.errno.OK? && p.state.SHeaderField? && !q0.halted && IsToken(ch)
    requires Fold(cb, false, q0, s) == Stretch(q0, p, Field, s, false)
    ensures var r := FieldStep(p.hs, p.index, ch);
            Fold(cb, false, q0, s + [ch]) == Stretch(q0, p.(hs := r.0, index := r.1), Field, s + [ch], false)
  {
    hide Emit, LastIs, Inv, Sane, FieldStep, IsToken, Fold;
    FoldSnoc(cb, false, q0, s, ch);
    assert Case(cb, p, false, ch) == FieldCase(p, ch);
    EmitSliceExtend(q0.log, Field, s, [ch]);
  }

  method FieldRun(ghost cb: Callbacks, p0: Parser, data: string, start: nat, ghost q0: Run) returns (p: Parser, i: nat)
    requires Inv(p0) && p0.errno.OK? && p0.state.SHeaderField? && start < |data|
    requires q0.p == p0 && !q0.halted && !q0.checked
    ensures start <= i <= |data| && (i < |data| ==> !IsToken(data[i]))
    ensures Inv(p) && p.errno.OK? && p.state.SHeaderField?
    ensures Fold(cb, false, q0, data[start..i]) == Stretch(q0, p, Field, data[start..i], false)
    ensures InLine(cb, q0, data[start..i])
  {
    hide Step, Drive, InLine;
    p, i := p0, start;
    assert data[start..start] == "";
    InLineStart(cb, q0);
    while i < |data|
      invariant start <= i <= |data|
      invariant Inv(p) && p.errno.OK? && p.state.SHeaderField?
      invariant InLine(cb, q0, data[start..i])
      invariant Fold(cb, false, q0, data[start..i]) == Stretch(q0, p, Field, data[start..i], false)
    {
      var ch := data[i];
      if !IsToken(ch) { return; }
      FieldByte(cb, q0, p, data[start..i], ch);
      assert data[start..i + 1] == data[start..i] + [ch];
      InLineSnoc(cb, q0, data[start..i], ch);
      var r := FieldStep(p.hs, p.index, ch);
      p, i := p.(hs := r.0, index := r.1), i + 1;
    }
  }

  lemma {:induction false} CaseInValue(cb: Callbacks, p: Parser, checked: bool, ch: char)
    requires Inv(p) && p.errno.OK? && p.state.SHeaderValue? && ch != CR && ch != LF
    ensures Case(cb, p, checked, ch) ==
            if IsHeaderChar(ch) || (checked && p.hs.HGeneral?) then ValueByte(p, ch) else Err(p, InvalidHeaderToken)
  {
    hide ValueByte, IsHeaderChar;
    assert Case(cb, p, checked, ch) == ValueCase(p, checked, ch);
  }

  /** One more byte of a header value that the matcher accepts. */
  lemma {:induction false} ValueByteTaken(cb: Callbacks, q0: Run, p: Parser, s: string, checked: bool, ch: char)
    requires Inv(q0.p) && Inv(p) && p.errno.OK? && p.state.SHeaderValue? && !q0.halted && ch != CR && ch != LF
    requires Fold(cb, false, q0, s) == Stretch(q0, p, Value, s, checked)
    requires IsHeaderChar(ch) || (checked && p.hs.HGeneral?)
    requires ValueByte(p, ch).ctl.Next?
    ensures Fold(cb, false, q0, s + [ch]) == Stretch(q0, ValueByte(p, ch).p, Value, s + [ch], p.hs.HGeneral?)
  {
    hide Case, ValueByte, IsHeaderChar;
    CaseInValue(cb, p, checked, ch);
    FoldSnoc(cb, false, q0, s, ch);
    EmitSliceExtend(q0.log, Value, s, [ch]);
  }

  /** A byte of a header value that is in error. */
  lemma {:induction false} ValueByteFails(cb: Callbacks, q0: Run, p: Parser, s: string, ch: char)
    requires Inv(q0.p) && Inv(p) && p.errno.OK? && p.state.SHeaderValue? && !q0.halted && ch != CR && ch != LF
    requires Fold(cb, false, q0, s) == Stretch(q0, p, Value, s, false)
    requires !IsHeaderChar(ch) || ValueByte(p, ch).ctl.Fail?
    ensures var e := if !IsHeaderChar(ch) then InvalidHeaderToken else ValueByte(p, ch).p.errno;
            var r := Fold(cb, false, q0, s + [ch]);
            r.p.errno == e && r.halted && r.consumed == q0.consumed + |s| && r.log == EmitSlice(q0.log, Value, s)
  {
    hide Case, ValueByte, IsHeaderChar;
    CaseInValue(cb, p, false, ch);
    FoldSnoc(cb, false, q0, s, ch);
  }

  /** The bytes `t` the parser skips in a general value. */
  lemma {:induction false} GeneralRun(cb: Callbacks, q0: Run, p: Parser, s: string, t: string)
    requires Inv(q0.p) && Inv(p) && p.errno.OK? && p.state.SHeaderValue? && p.hs.HGeneral? && !q0.halted
    requires Fold(cb, false, q0, s) == Stretch(q0, p, Value, s, true)
    requires CR !in t && LF !in t
    ensures Fold(cb, false, q0, s + t) == Stretch(q0, p, Value, s + t, true)
    decreases |t|
  {
    hide Step, Drive;
    if t == "" {
      assert s + t == s;
    } else {
      var n := |t| - 1;
      GeneralRun(cb, q0, p, s, t[..n]);
      ValueByteTaken(cb, q0, p, s + t[..n], true, t[n]);
      assert s + t == (s + t[..n]) + [t[n]];
    }
  }

  /** `memchr`: the first `c` among the `limit` bytes from `from`, or None. */
  method MemChr(data: string, c: char, from: nat, limit: nat) returns (r: Option<nat>)
    requires from + limit <= |data|
    ensures r.None? ==> c !in data[from..from + limit]
    ensures r.Some? ==> from <= r.value < from + limit && data[r.value] == c && c !in data[from..r.value]
  {
    var i := from;
    while i < from + limit
      invariant from <= i <= from + limit
      invariant c !in data[from..i]
    {
      if data[i] == c { return Some(i); }
      assert data[from..i + 1] == data[from..i] + [data[i]];
      i := i + 1;
    }
    return None;
  }

  /**
   * The skip over a general value: to the first CR or LF, or to the end of the slice. The search looks no
   * further than the header size limit, so a longer value may end short of the CR or LF it contains.
   */
  method SkipGeneral(data: string, from: nat) returns (i: nat)
    requires from < |data|
    ensures from <= i <= |data|
    ensures i < |data| ==> data[i] == CR || data[i] == LF
    ensures if i == |data| && from + MAX_HEADER_SIZE < |data|
            then CR !in data[from..from + MAX_HEADER_SIZE] && LF !in data[from..from + MAX_HEADER_SIZE]
            else CR !in data[from..i] && LF !in data[from..i]
  {
    var limit := if |data| - from < MAX_HEADER_SIZE then |data| - from else MAX_HEADER_SIZE;
    var cr := MemChr(data, CR, from, limit);
    var lf := MemChr(data, LF, from, limit);
    if cr.Some? {
      i := if lf.Some? && cr.value >= lf.value then lf.value else cr.value;
    } else if lf.Some? {
      i := lf.value;
    } else {
      i := |data|;
    }
    if i < |data| {
      if lf.Some? { assert data[from..i] == data[from..lf.value][..i - from]; }
      else { assert data[from..i] == data[from..from + limit][..i - from]; }
      if cr.Some? { assert data[from..i] == data[from..cr.value][..i - from]; }
      else { assert data[from..i] == data[from..from + limit][..i - from]; }
    }
  }

  /** The skipped stretch from byte `i` to byte `j`, whose first byte is the only one checked. */
  lemma {:induction false} SkipTaken(cb: Callbacks, q0: Run, p: Parser, data: string, start: nat, i: nat, j: nat)
    requires Inv(q0.p) && Inv(p) && p.errno.OK? && p.state.SHeaderValue? && p.hs.HGeneral? && !q0.halted
    requires start <= i < j <= |data| && CR !in data[i..j] && LF !in data[i..j] && IsHeaderChar(data[i])
    requires Fold(cb, false, q0, data[start..i]) == Stretch(q0, p, Value, data[start..i], false)
    ensures Fold(cb, false, q0, data[start..j]) == Stretch(q0, p, Value, data[start..j], true)
  {
    hide Fold, Step, Drive, EmitSlice, IsHeaderChar;
    assert data[i..j][0] == data[i];
    ValueByteTaken(cb, q0, p, data[start..i], false, data[i]);
    assert data[start..i + 1] == data[start..i] + [data[i]];
    assert data[i + 1..j] == data[i..j][1..];
    GeneralRun(cb, q0, p, data[start..i + 1], data[i + 1..j]);
    assert data[start..j] == data[start..i + 1] + data[i + 1..j];
  }

  /** All of the skipped stretch lies inside the value. */
  lemma {:induction false} SkipInLine(cb: Callbacks, q0: Run, p: Parser, data: string, start: nat, i: nat, j: nat)
    requires Inv(q0.p) && Inv(p) && p.errno.OK? && p.state.SHeaderValue? && p.hs.HGeneral? && !q0.halted
    requires start <= i < j <= |data| && CR !in data[i..j] && LF !in data[i..j] && IsHeaderChar(data[i])
    requires Fold(cb, false, q0, data[start..i]) == Stretch(q0, p, Value, data[start..i], false)
    requires InLine(cb, q0, data[start..i]) && q0.p.state.SHeaderValue?
    ensures InLine(cb, q0, data[start..j])
  {
    hide Fold, Step, Drive, EmitSlice, IsHeaderChar;
    forall k | 0 <= k <= j - start
      ensures var r := Fold(cb, false, q0, data[start..j][..k]); r.p.state == q0.p.state && Counts(r)
    {
      assert data[start..j][..k] == data[start..start + k];
      if start + k <= i {
        assert data[start..i][..k] == data[start..start + k];
      } else {
        assert data[i..start + k] == data[i..j][..start + k - i];
        SkipTaken(cb, q0, p, data, start, i, start + k);
      }
    }
  }

  lemma {:induction false} StretchStart(cb: Callbacks, q0: Run, k: Kind, data: string, start: nat)
    requires Inv(q0.p) && !q0.checked && start <= |data|
    ensures Fold(cb, false, q0, data[start..start]) == Stretch(q0, q0.p, k, data[start..start], false)
  {
    assert data[start..start] == "";
  }

  /** The skip from byte `start` reached the end of the slice beyond the window it searched. */
  predicate SkippedFar(data: string, start: nat, i: nat) { i == |data| && start + MAX_HEADER_SIZE < i }

  lemma {:induction false} SkipPrefix(cb: Callbacks, q0: Run, data: string, start: nat, k: nat)
    requires Inv(q0.p) && start <= k <= |data| && InLine(cb, q0, data[start..k])
    ensures start + MAX_HEADER_SIZE <= k ==> InLine(cb, q0, data[start..start + MAX_HEADER_SIZE])
  {
    hide InLine;
    if start + MAX_HEADER_SIZE <= k {
      InLinePrefix(cb, q0, data[start..k], MAX_HEADER_SIZE);
      assert data[start..k][..MAX_HEADER_SIZE] == data[start..start + MAX_HEADER_SIZE];
    }
  }

  /** The inner loop of `s_header_value`, up to CR, LF, an error or the end of the slice. */
  method ValueRun(ghost cb: Callbacks, p0: Parser, data: string, start: nat, ghost q0: Run)
    returns (p: Parser, i: nat, ghost checked: bool)
    requires Inv(p0) && p0.errno.OK? && p0.state.SHeaderValue? && start < |data|
    requires q0.p == p0 && !q0.halted && !q0.checked
    ensures start <= i <= |data| && Inv(p)
    ensures p.errno.OK? ==> p.state.SHeaderValue? && (i < |data| ==> data[i] == CR || data[i] == LF)
    ensures p.errno.OK? ==> if SkippedFar(data, start, i) then InLine(cb, q0, data[start..start + MAX_HEADER_SIZE])
                            else InLine(cb, q0, data[start..i]) &&
                                 Fold(cb, false, q0, data[start..i]) == Stretch(q0, p, Value, data[start..i], checked)
    ensures !p.errno.OK? ==> Failed(p) && i < |data| &&
                             var r := Fold(cb, false, q0, data[start..i + 1]);
                             r.p.errno == p.errno && r.halted && r.consumed == q0.consumed + (i - start) &&
                             r.log == EmitSlice(q0.log, Value, data[start..i])
  {
    hide Fold, Step, Drive, EmitSlice, ValueByte, IsHeaderChar, InLine;
    p, i, checked := p0, start, false;
    StretchStart(cb, q0, Value, data, start);
    assert data[start..start] == "";
    InLineStart(cb, q0);
    while i < |data|
      invariant start <= i <= |data| && !checked
      invariant Inv(p) && p.errno.OK? && p.state.SHeaderValue?
      invariant InLine(cb, q0, data[start..i])
      invariant Fold(cb, false, q0, data[start..i]) == Stretch(q0, p, Value, data[start..i], false)
    {
      var ch := data[i];
      if ch == CR || ch == LF { return; }
      assert data[start..i + 1] == data[start..i] + [ch];
      if !IsHeaderChar(ch) {
        ValueByteFails(cb, q0, p, data[start..i], ch);
        p := p.(errno := InvalidHeaderToken);
        return;
      }
      if p.hs.HGeneral? {
        var j := SkipGeneral(data, i);
        ghost var k := if SkippedFar(data, i, j) then i + MAX_HEADER_SIZE else j;
        SkipTaken(cb, q0, p, data, start, i, k);
        SkipInLine(cb, q0, p, data, start, i, k);
        SkipPrefix(cb, q0, data, start, k);
        i, checked := j, true;
        return;
      }
      var e := ValueByte(p, ch);
      if e.ctl.Fail? {
        ValueByteFails(cb, q0, p, data[start..i], ch);
        p := e.p;
        return;
      }
      ValueByteTaken(cb, q0, p, data[start..i], false, ch);
      InLineSnoc(cb, q0, data[start..i], ch);
      p, i := e.p, i + 1;
    }
    SkipPrefix(cb, q0, data, start, i);
  }

  // ---------------------------------------------------------------- body bytes

  lemma {:induction false} CaseInBody(cb: Callbacks, p: Parser, checked: bool, ch: char)
    requires Inv(p) && p.errno.OK? && BodyRunState(p.state)
    ensures Case(cb, p, checked, ch) == BodyCase(p, ch)
  {
    hide BodyCase;
  }

  /** A body byte that does not complete the body or chunk. */
  lemma {:induction false} BodyByteStep(cb: Callbacks, strict: bool, q: Run, ch: char)
    requires Inv(q.p) && q.p.errno.OK? && BodyRunState(q.p.state) && !q.halted && !q.checked && q.p.contentLength > 1
    ensures Step(cb, strict, q, ch) ==
            Run(q.p.(contentLength := q.p.contentLength - 1), Emit(q.log, Data(Body, [ch])), false, false, q.consumed + 1)
  {
    hide Case, Step, Emit, SizeCase;
    CaseInBody(cb, q.p, false, ch);
    StepTake(cb, strict, q, ch, q.p.(contentLength := q.p.contentLength - 1), Body);
  }

  /** Body bytes that do not complete the body or chunk. */
  lemma {:induction false} BodyStretch(cb: Callbacks, strict: bool, q0: Run, s: string)
    requires Inv(q0.p) && q0.p.errno.OK? && BodyRunState(q0.p.state) && !q0.halted && !q0.checked
    requires |s| < q0.p.contentLength
    ensures Fold(cb, strict, q0, s) ==
            Stretch(q0, q0.p.(contentLength := q0.p.contentLength - |s|), Body, s, false)
    decreases |s|
  {
    hide Case, Step, Emit, EmitSlice;
    if s == "" {
      EmptyEmitted(q0.log, Body);
    } else {
      var n := |s| - 1;
      BodyStretch(cb, strict, q0, s[..n]);
      BodyByteStep(cb, strict, Fold(cb, strict, q0, s[..n]), s[n]);
      EmitSliceByte(q0.log, Body, s[..n], s[n]);
      assert s[..n] + [s[n]] == s;
    }
  }

  /** The last byte of a chunk. */
  lemma {:induction false} ChunkLastByte(cb: Callbacks, strict: bool, q0: Run, s: string)
    requires Inv(q0.p) && q0.p.errno.OK? && q0.p.state.SChunkData? && !q0.halted && !q0.checked
    requires |s| == q0.p.contentLength
    ensures Fold(cb, strict, q0, s) ==
            Stretch(q0, q0.p.(contentLength := 0, state := SChunkDataAlmostDone), Body, s, false)
  {
    hide Case, Step;
    var n := |s| - 1;
    BodyStretch(cb, strict, q0, s[..n]);
    var p := q0.p.(contentLength := 1);
    CaseInBody(cb, p, false, s[n]);
    EmitSliceExtend(q0.log, Body, s[..n], [s[n]]);
    assert s[..n] + [s[n]] == s;
    StepTake(cb, strict, Fold(cb, strict, q0, s[..n]), s[n], p.(contentLength := 0, state := SChunkDataAlmostDone), Body);
  }

  /** Body bytes do not count as header bytes. */
  lemma {:induction false} BodyNotCounted(cb: Callbacks, strict: bool, c: nat, q0: Run, s: string)
    requires Inv(q0.p) && q0.p.errno.OK? && BodyRunState(q0.p.state) && !q0.halted && !q0.checked
    requires |s| <= q0.p.contentLength
    ensures Count(cb, strict, c, q0, s) == c
  {
    hide Fold, Count;
    forall i | 0 <= i < |s|
      ensures BodyRunState(Fold(cb, strict, q0, s[..i]).p.state)
    {
      BodyStretch(cb, strict, q0, s[..i]);
    }
    BodyCount(cb, strict, c, q0, s);
  }

  /** The last byte of a body: the data is complete before the message is, on the same byte. */
  lemma {:induction false} BodyLastByte(cb: Callbacks, strict: bool, q0: Run, s: string)
    requires Inv(q0.p) && q0.p.errno.OK? && q0.p.state.SBodyIdentity? && !q0.halted && !q0.checked
    requires |s| == q0.p.contentLength
    ensures var done := q0.p.(contentLength := 0, state := SMessageDone);
            Fold(cb, strict, q0, s) ==
            Step(cb, strict, Run(done, EmitSlice(q0.log, Body, s), false, false, q0.consumed + |s| - 1), s[|s| - 1])
  {
    hide Case, Step, EmitSlice, Emit, BodyCase, Fold;
    var n := |s| - 1;
    BodyStretch(cb, strict, q0, s[..n]);
    assert s[..n] + [s[n]] == s;
    FoldSnoc(cb, strict, q0, s[..n], s[n]);
    LastByteStep(cb, strict, Stretch(q0, q0.p.(contentLength := 1), Body, s[..n], false), s[n]);
    EmitSliceByte(q0.log, Body, s[..n], s[n]);
  }

  lemma {:induction false} EmptyEmitted(log: seq<Event>, k: Kind)
    ensures EmitSlice(log, k, "") == log
  {
  }

  lemma {:induction false} EmitSliceByte(log: seq<Event>, k: Kind, s: string, ch: char)
    ensures Emit(EmitSlice(log, k, s), Data(k, [ch])) == EmitSlice(log, k, s + [ch])
  {
    EmitSliceExtend(log, k, s, [ch]);
  }

  lemma {:induction false} LastByteStep(cb: Callbacks, strict: bool, q: Run, ch: char)
    requires Inv(q.p) && q.p.errno.OK? && q.p.state.SBodyIdentity? && q.p.contentLength == 1 && !q.halted && !q.checked
    ensures Step(cb, strict, q, ch) ==
            Step(cb, strict, Run(q.p.(contentLength := 0, state := SMessageDone), Emit(q.log, Data(Body, [ch])), false,
                                false, q.consumed), ch)
  {
    hide Case, Step, BodyCase;
    LastBodyCase(cb, q.p, ch);
    StepAgain(cb, strict, q, ch, Effect(q.p.(contentLength := 0, state := SMessageDone), Some(Body), None, [], Again));
  }

  lemma {:induction false} LastBodyCase(cb: Callbacks, p: Parser, ch: char)
    requires Inv(p) && p.errno.OK? && p.state.SBodyIdentity? && p.contentLength == 1
    ensures Case(cb, p, false, ch) ==
            Effect(p.(contentLength := 0, state := SMessageDone), Some(Body), None, [], Again)
  {
    CaseInBody(cb, p, false, ch);
  }

  // ---------------------------------------------------------------- data marks

  /** The parser's data marks: where in the slice the open name, value, URL or body began. */
  datatype Marks = Marks(field: Option<nat>, value: Option<nat>, url: Option<nat>, body: Option<nat>)

  const NO_MARKS := Marks(None, None, None, None)

  function Get(m: Marks, k: Kind): Option<nat> {
    match k case Field => m.field case Value => m.value case Url => m.url case Body => m.body
  }

  function Set(m: Marks, k: Kind, o: Option<nat>): Marks {
    match k
    case Field => m.(field := o) case Value => m.(value := o) case Url => m.(url := o) case Body => m.(body := o)
  }

  /** The state decides which mark is set; a body mark may also be unset, at the start of a slice. */
  predicate MarksOk(s: State, m: Marks, i: nat) {
    && (m.field.Some? <==> s.SHeaderField?)
    && (m.value.Some? <==> s.SHeaderValue?)
    && (m.url.Some? <==> UrlState(s))
    && (m.body.Some? ==> BodyRunState(s) || s.SChunkDataAlmostDone?)
    && (m.field.Some? ==> m.field.value <= i) && (m.value.Some? ==> m.value.value <= i)
    && (m.url.Some? ==> m.url.value <= i) && (m.body.Some? ==> m.body.value < i)
  }

  /** At most one mark is set: what the parser asserts when it runs out of bytes. */
  predicate AtMostOneMark(m: Marks) {
    && (m.field.Some? ==> m.value.None? && m.url.None? && m.body.None?)
    && (m.value.Some? ==> m.url.None? && m.body.None?)
    && (m.url.Some? ==> m.body.None?)
  }

  predicate InSlice(m: Marks, i: nat) {
    && (m.field.Some? ==> m.field.value <= i) && (m.value.Some? ==> m.value.value <= i)
    && (m.url.Some? ==> m.url.value <= i) && (m.body.Some? ==> m.body.value <= i)
  }

  /** `log` with the marked data up to byte `i`, which has not been delivered yet. */
  function WithMark(log: seq<Event>, m: Marks, data: string, i: nat): seq<Event>
    requires InSlice(m, i) && i <= |data|
  {
    if m.field.Some? then EmitSlice(log, Field, data[m.field.value..i])
    else if m.value.Some? then EmitSlice(log, Value, data[m.value.value..i])
    else if m.url.Some? then EmitSlice(log, Url, data[m.url.value..i])
    else if m.body.Some? then EmitSlice(log, Body, data[m.body.value..i])
    else log
  }

  /** `all` is `log` and at most one more piece of data, which was never delivered. */
  ghost predicate Undelivered(log: seq<Event>, all: seq<Event>) {
    exists k: Kind, s: string :: all == EmitSlice(log, k, s)
  }

  lemma {:induction false} NothingUndelivered(log: seq<Event>)
    ensures Undelivered(log, log)
  {
    assert log == EmitSlice(log, Body, "");
  }

  /** What a mark holds back is one piece of data. */
  lemma {:induction false} MarkUndelivered(log: seq<Event>, m: Marks, data: string, i: nat)
    requires InSlice(m, i) && i <= |data|
    ensures Undelivered(log, WithMark(log, m, data, i))
  {
    hide Emit;
    if m == NO_MARKS { assert WithMark(log, m, data, i) == EmitSlice(log, Body, ""); }
  }

  /** `CALLBACK_DATA`: deliver the data since the mark, if the mark is set. */
  function Flushed(raw: seq<Event>, m: Marks, k: Kind, data: string, i: nat): (r: seq<Event>)
    requires InSlice(m, i) && i <= |data|
    ensures raw <= r
  {
    if Get(m, k).Some? then raw + [Data(k, data[Get(m, k).value..i])] else raw
  }

  /** Delivering the marked data adds to the joined log just what was pending. */
  lemma {:induction false} FlushDelivers(raw: seq<Event>, s: State, m: Marks, k: Kind, data: string, i: nat)
    requires MarksOk(s, m, i) && i <= |data| && InSlice(m, i)
    requires OpenKind(s) == Some(k) || (k.Body? && OpenKind(s).None?)
    requires OpenKind(s).Some? ==> LastIs(WithMark(Merged(raw), m, data, i), k)
    ensures Merged(Flushed(raw, m, k, data, i)) == WithMark(Merged(raw), m, data, i)
    ensures Set(m, k, None) == NO_MARKS
  {
    hide Emit, LastIs, EmitAll;
    if Get(m, k).Some? {
      var t := data[Get(m, k).value..i];
      EmitAllAppend([], raw, Data(k, t));
      if t == "" { EmitNothing(Merged(raw), k); }
    }
  }

  /**
   * How a `case` uses the marks: which data callback it runs and which mark it sets. A chunk size is only
   * entered with the header size counter reset.
   */
  predicate MarkRules(p: Parser, e: Effect) {
    && (e.ctl.Next? ==>
          && e.data == OpenKind(e.p.state)
          && e.flush == (if OpenKind(p.state).Some? then
                           (if OpenKind(e.p.state) == OpenKind(p.state) then None else OpenKind(p.state))
                         else if p.state.SChunkDataAlmostDone? then Some(Body) else None)
          && (OpenKind(p.state).Some? ==> OpenKind(e.p.state).None? || OpenKind(e.p.state) == OpenKind(p.state)))
    && (e.ctl.Again? ==> e.flush == OpenKind(p.state) && e.data.None? && !p.state.SChunkDataAlmostDone?)
    && (e.ctl.Return? ==> e.flush.None? && e.data.None? && OpenKind(p.state).None? && !p.state.SChunkDataAlmostDone?)
    && (e.ctl.Fail? ==> e.flush.None? && e.data.None? && e.notes == [])
    && (e.data.Some? || e.flush.Some? ==> e.notes == [])
    && (e.flush.Some? ==> e.data.None?)
    && (e.p.state.SChunkSizeStart? && !e.ctl.Fail? ==> ResetsCount(p, e) && !e.ctl.Again?)
    && (e.ctl.Again? ==> !ResetsCount(p, e))
  }

  lemma {:induction false} StartMarks(p: Parser, ch: char)
    requires Inv(p) && p.errno.OK? && StartState(p.state)
    ensures MarkRules(p, StartCase(p, ch))
  {
  }

  lemma {:induction false} UrlMarks(p: Parser, ch: char)
    requires Inv(p) && p.errno.OK? && UrlState(p.state)
    ensures MarkRules(p, UrlCase(p, ch))
  {
  }

  lemma {:induction false} ProtocolMarks(p: Parser, ch: char)
    requires Inv(p) && p.errno.OK? && ProtocolState(p.state)
    ensures MarkRules(p, ProtocolCase(p, ch))
  {
    hide Inv;
  }

  lemma {:induction false} VersionMarks(p: Parser, ch: char)
    requires Inv(p) && p.errno.OK? && VersionState(p.state)
    ensures MarkRules(p, VersionCase(p, ch))
  {
    hide Inv, VersionDigit, IsNum;
  }

  lemma {:induction false} FieldMarks(p: Parser, ch: char)
    requires Inv(p) && p.errno.OK? && FieldState(p.state)
    ensures MarkRules(p, FieldCase(p, ch))
  {
  }

  lemma {:induction false} ValueMarks(p: Parser, ch: char)
    requires Inv(p) && p.errno.OK?
    ensures DiscardState(p.state) ==> MarkRules(p, DiscardCase(p, ch))
    ensures ValueEdgeState(p.state) ==> MarkRules(p, ValueEdgeCase(p, ch))
    ensures p.state.SHeaderValue? ==> MarkRules(p, ValueCase(p, false, ch))
  {
    hide ValueStart, ValueByte;
  }

  lemma {:induction false} EndMarks(cb: Callbacks, p: Parser, ch: char)
    requires Inv(p) && p.errno.OK? && EndState(p.state)
    ensures MarkRules(p, EndCase(cb, p, ch))
  {
    hide Inv;
  }

  lemma {:induction false} BodyMarks(p: Parser, ch: char)
    requires Inv(p) && p.errno.OK? && BodyState(p.state) && !BodyRunState(p.state)
    ensures MarkRules(p, BodyCase(p, ch))
  {
    hide Inv, DataCase, AppendHexDigit, UnHex;
  }

  lemma {:induction false} CaseMarks(cb: Callbacks, p: Parser, ch: char)
    requires Inv(p) && p.errno.OK? && !BodyRunState(p.state)
    ensures MarkRules(p, Case(cb, p, false, ch))
  {
    hide MarkRules, StartCase, UrlCase, ProtocolCase, VersionCase, FieldCase, DiscardCase, ValueEdgeCase, ValueCase,
         EndCase, BodyCase, Inv;
    if StartState(p.state) { StartMarks(p, ch); }
    else if UrlState(p.state) { UrlMarks(p, ch); }
    else if ProtocolState(p.state) { ProtocolMarks(p, ch); }
    else if VersionState(p.state) { VersionMarks(p, ch); }
    else if FieldState(p.state) { FieldMarks(p, ch); }
    else if EndState(p.state) { EndMarks(cb, p, ch); }
    else if BodyState(p.state) { BodyMarks(p, ch); }
    else { ValueMarks(p, ch); }
  }

  /** The marks after a `case`: the delivered one is cleared, a new one is set at this byte. */
  function Marked(m: Marks, e: Effect, i: nat): Marks {
    var m1 := if e.flush.Some? then Set(m, e.flush.value, None) else m;
    if e.data.Some? && Get(m1, e.data.value).None? then Set(m1, e.data.value, Some(i)) else m1
  }

  /** The raw callbacks after a `case`. */
  function Called(raw: seq<Event>, m: Marks, e: Effect, data: string, i: nat): (r: seq<Event>)
    requires InSlice(m, i) && i <= |data|
    ensures raw <= r
  {
    (if e.flush.Some? then Flushed(raw, m, e.flush.value, data, i) else raw) + e.notes
  }

  lemma {:induction false} MergedAppend(raw: seq<Event>, es: seq<Event>)
    ensures Merged(raw + es) == EmitAll(Merged(raw), es)
  {
    EmitAllConcat([], raw, es);
  }

  /** Marks and callbacks of the parser against the byte-by-byte log, across one `case`. */
  lemma {:induction false} CaseLogged(raw: seq<Event>, p: Parser, e: Effect, m: Marks, data: string, i: nat)
    requires MarkRules(p, e) && Sane(e) && MarksOk(p.state, m, i) && i < |data| && !BodyRunState(p.state)
    requires OpenKind(p.state).Some? ==> LastIs(WithMark(Merged(raw), m, data, i), OpenKind(p.state).value)
    requires !e.ctl.Fail?
    ensures var m1 := Marked(m, e, i); var raw1 := Called(raw, m, e, data, i);
            var log := WithMark(Merged(raw), m, data, i);
            && (e.ctl.Next? ==> MarksOk(e.p.state, m1, i + 1) && InSlice(m1, i + 1) &&
                                WithMark(Merged(raw1), m1, data, i + 1) == Noted(log, e, data[i]))
            && (e.ctl.Again? ==> MarksOk(e.p.state, m1, i) && InSlice(m1, i) &&
                                 WithMark(Merged(raw1), m1, data, i) == Noted(log, e, data[i]))
            && (e.ctl.Return? ==> Merged(raw1) == Noted(log, e, data[i]))
  {
    hide EmitSlice, Emit, EmitAll, Merged, Flushed;
    var ch := data[i];
    var log := WithMark(Merged(raw), m, data, i);
    if e.flush.Some? {
      FlushDelivers(raw, p.state, m, e.flush.value, data, i);
      assert Called(raw, m, e, data, i) == Flushed(raw, m, e.flush.value, data, i);
      EmitAllNil(log);
    } else if e.data.Some? {
      var k := e.data.value;
      assert Called(raw, m, e, data, i) == raw;
      var start := if Get(m, k).Some? then Get(m, k).value else i;
      EmitSliceByte(Merged(raw), k, data[start..i], ch);
      assert data[start..i] + [ch] == data[start..i + 1];
      EmitAllNil(Emit(log, Data(k, [ch])));
      EmitAllNil(Merged(raw));
      EmptySlice(Merged(raw), k, data, i);
    } else {
      assert m == NO_MARKS;
      MergedAppend(raw, e.notes);
    }
  }

  lemma {:induction false} EmitAllNil(log: seq<Event>)
    ensures EmitAll(log, []) == log
  {
  }

  lemma {:induction false} EmptySlice(log: seq<Event>, k: Kind, data: string, i: nat)
    requires i <= |data|
    ensures EmitSlice(log, k, data[i..i]) == log
  {
    assert data[i..i] == "";
  }

  /** The last byte of a skipped value is CR or LF, which is never checked. */
  lemma {:induction false} CheckedIrrelevant(cb: Callbacks, q: Run, ch: char)
    requires Inv(q.p) && q.p.errno.OK? && !q.halted
    requires q.p.state.SHeaderValue? ==> ch == CR || ch == LF
    ensures Step(cb, false, q, ch) == Step(cb, false, q.(checked := false), ch)
  {
    hide StartCase, UrlCase, ProtocolCase, VersionCase, FieldCase, DiscardCase, ValueEdgeCase, EndCase, BodyCase,
         ValueByte, Noted;
  }

  lemma {:induction false} StepKeepsRunInv(cb: Callbacks, q: Run, ch: char)
    requires RunInv(q) && q.p.errno.OK? && !q.halted
    ensures RunInv(Step(cb, false, q, ch))
  {
    hide Drive;
    DriveKeepsRunInv(cb, false, q, ch);
  }

  /** A `case` that stops the parser or moves on to the next byte ends the step. */
  lemma {:induction false} StepEnds(cb: Callbacks, q: Run, ch: char, e: Effect)
    requires RunInv(q) && q.p.errno.OK? && !q.halted && !q.checked && e == Case(cb, q.p, false, ch) && !e.ctl.Again?
    ensures var r := Step(cb, false, q, ch);
            && r.p == e.p
            && (e.ctl.Fail? ==> r.halted && r.consumed == q.consumed && Failed(r.p))
            && (r.checked ==> q.p.state.SHeaderValue? && e.p.state.SHeaderValue?)
            && (e.ctl.Next? ==> !r.halted && r.consumed == q.consumed + 1 && r.log == Noted(q.log, e, ch) && r.p.errno.OK?)
            && (e.ctl.Return? ==> r.halted && r.log == Noted(q.log, e, ch) &&
                                  r.consumed == q.consumed + if e.ctl.advance then 1 else 0)
  {
    hide Case, Noted;
  }

  /** A byte in error adds nothing to the log. */
  lemma {:induction false} FailUndelivered(cb: Callbacks, q: Run, log: seq<Event>, m: Marks, data: string, i: nat,
                                           e: Effect)
    requires RunInv(q) && q.p.errno.OK? && !q.halted && !q.checked && i < |data| && InSlice(m, i)
    requires e == Case(cb, q.p, false, data[i]) && e.ctl.Fail? && MarkRules(q.p, e) && q.log == WithMark(log, m, data, i)
    ensures Undelivered(log, Step(cb, false, q, data[i]).log)
  {
    hide Case, WithMark, Undelivered, Emit;
    MarkUndelivered(log, m, data, i);
    EmitAllNil(q.log);
  }

  /** `reexecute` stands at the same byte, with the effect of the `case` noted. */
  lemma {:induction false} StepRedone(cb: Callbacks, q: Run, ch: char, e: Effect)
    requires RunInv(q) && q.p.errno.OK? && !q.halted && !q.checked && e == Case(cb, q.p, false, ch) && e.ctl.Again?
    ensures var r := Run(e.p, Noted(q.log, e, ch), false, false, q.consumed);
            RunInv(r) && Step(cb, false, q, ch) == Step(cb, false, r, ch) && Rank(e.p.state) < Rank(q.p.state) &&
            e.p.errno.OK? && !BodyRunState(e.p.state) && !e.p.state.SHeaderValue?
  {
    hide Case, Noted;
    StepAgain(cb, false, q, ch, e);
  }

  lemma {:induction false} CaseAtLineEnd(cb: Callbacks, p: Parser, ch: char)
    requires Inv(p) && p.errno.OK? && p.state.SHeaderValue? && (ch == CR || ch == LF)
    ensures Case(cb, p, false, ch).p.state.SHeaderAlmostDone? && (ch == CR ==> Case(cb, p, false, ch).ctl.Next?)
  {
    assert Case(cb, p, false, ch) == ValueCase(p, false, ch);
  }

  /** The run that has seen `data[..j]` stands at byte `j`. */
  lemma {:induction false} StandsAt(cb: Callbacks, q0: Run, r: Run, data: string, j: nat)
    requires j < |data| && RunInv(q0) && RunInv(r) && r.p.errno.OK? && !r.halted
    requires r == Fold(cb, false, q0, data[..j]) || Step(cb, false, r, data[j]) == Fold(cb, false, q0, data[..j + 1])
    requires r.p.state.SHeaderValue? ==> data[j] == CR || data[j] == LF
    ensures Step(cb, false, r.(checked := false), data[j]) == Fold(cb, false, q0, data[..j + 1])
  {
    hide Step, Fold;
    if r == Fold(cb, false, q0, data[..j]) { FoldPrefix(cb, false, q0, data, j); }
    CheckedIrrelevant(cb, r, data[j]);
  }

  lemma {:induction false} CountRule(p: Parser, e: Effect)
    requires MarkRules(p, e)
    ensures e.p.state.SChunkSizeStart? && !e.ctl.Fail? ==> ResetsCount(p, e) && !e.ctl.Again?
    ensures e.ctl.Again? ==> !ResetsCount(p, e)
  {
  }

  lemma {:induction false} ReturnsClosed(e: Effect)
    requires Sane(e)
    ensures e.ctl.Return? && e.p.errno.OK? ==> !LineOpen(e.p.state)
  {
  }

  lemma {:induction false} OpenLast(q: Run)
    requires RunInv(q) && q.p.errno.OK?
    ensures OpenKind(q.p.state).Some? ==> LastIs(q.log, OpenKind(q.p.state).value)
  {
  }

  /** The run over a stretch of data whose mark is set. */
  lemma {:induction false} StretchReached(cb: Callbacks, raw: seq<Event>, q0: Run, q: Run, data: string, i: nat,
                                          j: nat, m: Marks,
                       p: Parser, k: Kind, checked: bool)
    requires i < |data| && i <= j <= |data| && InSlice(m, i) && RunInv(q0) && RunInv(q)
    requires q == Fold(cb, false, q0, data[..i]) && !q.halted && q.consumed == i
    requires MarksOk(p.state, m, i) && Get(m, k).Some? && q.log == WithMark(Merged(raw), m, data, i)
    requires Fold(cb, false, q, data[i..j]) == Stretch(q, p, k, data[i..j], checked)
    requires Inv(p) && p.errno.OK? && q.p.state == p.state
    ensures ReachedAt(cb, q0, Fold(cb, false, q, data[i..j]), p, raw, data, j, m)
  {
    hide Fold, Merged, EmitSlice, Emit, Inv;
    assert data[..j] == data[..i] + data[i..j];
    FoldConcat(cb, false, q0, data[..i], data[i..j]);
    FoldKeepsRunInv(cb, false, q, data[i..j]);
    var a := Get(m, k).value;
    assert data[a..i] + data[i..j] == data[a..j];
    EmitSliceExtend(Merged(raw), k, data[a..i], data[i..j]);
  }

  /** The parser's position in a slice: the run `q` has seen `data[..i]` and the parser agrees with it. */
  ghost predicate ReachedAt(cb: Callbacks, q0: Run, q: Run, p: Parser, raw: seq<Event>, data: string, i: nat,
                            m: Marks) {
    && i <= |data| && InSlice(m, i) && RunInv(q0) && RunInv(q)
    && q == Fold(cb, false, q0, data[..i])
    && q.p == p && p.errno.OK? && !q.halted && q.consumed == i
    && MarksOk(p.state, m, i)
    && q.log == WithMark(Merged(raw), m, data, i)
  }

  /** The marks once body bytes have been taken at byte `i`. */
  function BodyMarked(m: Marks, i: nat): Marks {
    if m.body.None? then m.(body := Some(i)) else m
  }

  /** Where `n` body bytes from byte `i` lead, if they do not complete an identity body. */
  lemma {:induction false} BodyReached(cb: Callbacks, raw: seq<Event>, q0: Run, q: Run, data: string, i: nat, n: nat,
                                       m: Marks)
    requires ReachedAt(cb, q0, q, q.p, raw, data, i, m) && BodyRunState(q.p.state) && !q.checked
    requires 0 < n <= q.p.contentLength && i + n <= |data|
    requires n < q.p.contentLength || q.p.state.SChunkData?
    ensures var p := if n < q.p.contentLength then q.p.(contentLength := q.p.contentLength - n)
                     else q.p.(contentLength := 0, state := SChunkDataAlmostDone);
            var r := Fold(cb, false, q, data[i..i + n]);
            ReachedAt(cb, q0, r, p, raw, data, i + n, BodyMarked(m, i)) && !r.checked
  {
    hide Fold, EmitSlice, Emit, Merged, Inv;
    var s := data[i..i + n];
    assert data[..i + n] == data[..i] + s;
    FoldConcat(cb, false, q0, data[..i], s);
    FoldKeepsRunInv(cb, false, q, s);
    BodyLogged(raw, data, i, n, m);
    if n < q.p.contentLength { BodyStretch(cb, false, q, s); } else { ChunkLastByte(cb, false, q, s); }
  }

  lemma {:induction false} BodyLogged(raw: seq<Event>, data: string, i: nat, n: nat, m: Marks)
    requires InSlice(m, i) && i + n <= |data|
    requires m.field.None? && m.value.None? && m.url.None?
    ensures EmitSlice(WithMark(Merged(raw), m, data, i), Body, data[i..i + n]) ==
            WithMark(Merged(raw), BodyMarked(m, i), data, i + n)
  {
    hide EmitSlice, Emit, Merged;
    var a := BodyMarked(m, i).body.value;
    EmptySlice(Merged(raw), Body, data, i);
    EmitSliceExtend(Merged(raw), Body, data[a..i], data[i..i + n]);
    assert data[a..i] + data[i..i + n] == data[a..i + n];
  }

  /** Where the body bytes that complete an identity body lead: to the last one, seen once more. */
  lemma {:induction false} BodyCompleted(cb: Callbacks, raw: seq<Event>, q0: Run, q: Run, data: string, i: nat,
                                         m: Marks)
    requires ReachedAt(cb, q0, q, q.p, raw, data, i, m) && q.p.state.SBodyIdentity? && !q.checked
    requires i + q.p.contentLength <= |data|
    ensures var n := q.p.contentLength; var j := i + n - 1; var m1 := BodyMarked(m, i);
            var r := Run(q.p.(contentLength := 0, state := SMessageDone),
                         Merged(Flushed(raw, m1, Body, data, i + n)), false, false, j);
            j < |data| && RunInv(r) && Step(cb, false, r, data[j]) == Fold(cb, false, q0, data[..j + 1])
  {
    hide Fold, EmitSlice, Emit, Merged, Step, Case, Inv, Sane, LastIs, MarksOk, UrlState;
    var n := q.p.contentLength;
    BodyInvariant(q, m, i);
    var s := data[i..i + n];
    assert data[..i + n] == data[..i] + s;
    FoldConcat(cb, false, q0, data[..i], s);
    BodyLogged(raw, data, i, n, m);
    FlushBody(raw, BodyMarked(m, i), data, i + n);
    BodyLastByte(cb, false, q, s);
    assert s[n - 1] == data[i + n - 1];
  }

  /** In a body no mark but that of the body is set, and completing it keeps the invariant. */
  lemma {:induction false} BodyInvariant(q: Run, m: Marks, i: nat)
    requires RunInv(q) && q.p.errno.OK? && q.p.state.SBodyIdentity? && MarksOk(q.p.state, m, i)
    ensures Inv(q.p) && 0 < q.p.contentLength && m.field.None? && m.value.None? && m.url.None?
    ensures forall log, j: nat :: RunInv(Run(q.p.(contentLength := 0, state := SMessageDone), log, false, false, j))
    ensures m.body.Some? ==> m.body.value < i
  {
  }

  lemma {:induction false} FlushBody(raw: seq<Event>, m: Marks, data: string, i: nat)
    requires m.body.Some? && m.body.value < i <= |data| && InSlice(m, i)
    ensures Merged(Flushed(raw, m, Body, data, i)) == EmitSlice(Merged(raw), Body, data[m.body.value..i])
  {
    EmitAllAppend([], raw, Data(Body, data[m.body.value..i]));
  }

  /** The data callbacks run when the slice is used up. */
  function FlushedAll(raw: seq<Event>, m: Marks, data: string): (r: seq<Event>)
    requires InSlice(m, |data|)
    ensures raw <= r
  {
    var n := |data|;
    Flushed(Flushed(Flushed(Flushed(raw, m, Field, data, n), m, Value, data, n), m, Url, data, n), m, Body, data, n)
  }

  /** At the end of a slice at most one mark is set, and delivering it completes the log. */
  lemma {:induction false} SliceEnd(raw: seq<Event>, q: Run, m: Marks, data: string)
    requires MarksOk(q.p.state, m, |data|) && InSlice(m, |data|) && RunInv(q) && q.p.errno.OK?
    requires q.log == WithMark(Merged(raw), m, data, |data|)
    ensures AtMostOneMark(m) && Merged(FlushedAll(raw, m, data)) == q.log
  {
    hide Merged, Flushed, EmitSlice, Inv;
    OpenLast(q);
    forall k: Kind | Get(m, k).None?
      ensures Flushed(raw, m, k, data, |data|) == raw
    {
      NothingFlushed(raw, m, k, data);
    }
    if m != NO_MARKS {
      var k := if m.field.Some? then Field else if m.value.Some? then Value else if m.url.Some? then Url else Body;
      FlushDelivers(raw, q.p.state, m, k, data, |data|);
      var raw1 := Flushed(raw, m, k, data, |data|);
      forall k': Kind | k' != k
        ensures Flushed(raw1, m, k', data, |data|) == raw1
      {
        NothingFlushed(raw1, m, k', data);
      }
    }
  }

  lemma {:induction false} NothingFlushed(raw: seq<Event>, m: Marks, k: Kind, data: string)
    requires InSlice(m, |data|) && Get(m, k).None?
    ensures Flushed(raw, m, k, data, |data|) == raw
  {
  }

  /** The marks with which a slice starts: inside whatever the last slice left open. */
  function StartMarksOf(s: State): (m: Marks)
    ensures MarksOk(s, m, 0) && InSlice(m, 0)
  {
    Marks(if s.SHeaderField? then Some(0) else None, if s.SHeaderValue? then Some(0) else None,
          if UrlState(s) then Some(0) else None, None)
  }

  lemma {:induction false} SliceStart(cb: Callbacks, p: Parser, raw: seq<Event>, data: string)
    requires RunInv(Run(p, Merged(raw), false, false, 0)) && p.errno.OK?
    ensures var q0 := Run(p, Merged(raw), false, false, 0);
            ReachedAt(cb, q0, q0, p, raw, data, 0, StartMarksOf(p.state))
  {
    hide Merged, EmitSlice, Inv;
    assert data[..0] == "";
    forall k: Kind { EmptySlice(Merged(raw), k, data, 0); }
  }

  // ---------------------------------------------------------------- the header size counter

  lemma {:induction false} NothingCounted(cb: Callbacks, c: nat, q0: Run, data: string)
    requires Inv(q0.p)
    ensures Count(cb, false, c, q0, data[..0]) == c && Roomy(cb, c, q0, data, 0)
  {
  }

  /** A slice for a parser that has stopped before. */
  lemma {:induction false} StoppedSlice(cb: Callbacks, c: nat, q0: Run, raw: seq<Event>, data: string)
    requires Inv(q0.p) && !q0.p.errno.OK? && q0.log == Merged(raw)
    ensures Fold(cb, false, q0, data) == q0 && Undelivered(Merged(raw), q0.log) && Tally(cb, c, q0, data) == c
    ensures c <= MAX_HEADER_SIZE ==> !Overfull(cb, c, q0, data)
  {
    hide Merged, Count, Fold;
    FoldStopped(cb, false, q0, data);
    forall k: nat | k < |data|
      ensures !NoRoom(cb, c, q0, data, k)
    {
      FoldStopped(cb, false, q0, data[..k]);
    }
    CountStopped(cb, false, c, q0, data);
    NothingUndelivered(q0.log);
  }

  /** Once the parser has stopped, the counter stands still too. */
  lemma {:induction false} StoppedCount(cb: Callbacks, c: nat, q0: Run, data: string, i: nat)
    requires Inv(q0.p) && i <= |data|
    requires var q := Fold(cb, false, q0, data[..i]); q.halted && (q.p.errno.OK? ==> !LineOpen(q.p.state))
    ensures Fold(cb, false, q0, data) == Fold(cb, false, q0, data[..i])
    ensures Tally(cb, c, q0, data) == Count(cb, false, c, q0, data[..i])
  {
    hide Count, Fold;
    var q := Fold(cb, false, q0, data[..i]);
    assert data == data[..i] + data[i..];
    FoldConcat(cb, false, q0, data[..i], data[i..]);
    FoldStopped(cb, false, q, data[i..]);
    CountConcat(cb, false, c, q0, data[..i], data[i..]);
    CountStopped(cb, false, Count(cb, false, c, q0, data[..i]), q, data[i..]);
  }

  /** Body bytes `data[i..i + n]` leave the counter alone. */
  lemma {:induction false} BodyPassed(cb: Callbacks, c: nat, q0: Run, q: Run, data: string, i: nat, n: nat)
    requires Inv(q0.p) && 0 < n && i + n <= |data| && q == Fold(cb, false, q0, data[..i]) && n <= q.p.contentLength
    requires Inv(q.p) && q.p.errno.OK? && BodyRunState(q.p.state) && !q.halted && !q.checked
    ensures Count(cb, false, c, q0, data[..i + n]) == Count(cb, false, c, q0, data[..i])
    ensures !Continued(cb, q0, data[..i + n])
  {
    hide Count, Fold, EmitSlice;
    assert data[..i + n] == data[..i] + data[i..i + n];
    CountConcat(cb, false, c, q0, data[..i], data[i..i + n]);
    BodyNotCounted(cb, false, Count(cb, false, c, q0, data[..i]), q, data[i..i + n]);
    assert data[..i + n][..i + n - 1] == data[..i] + data[i..i + n - 1];
    FoldConcat(cb, false, q0, data[..i], data[i..i + n - 1]);
    BodyStretch(cb, false, q, data[i..i + n - 1]);
  }

  /** The bytes `data[i..j]` of a name or value all count. */
  lemma {:induction false} LinePassed(cb: Callbacks, c: nat, q0: Run, q: Run, data: string, i: nat, j: nat)
    requires Inv(q0.p) && i <= j <= |data| && q == Fold(cb, false, q0, data[..i]) && InLine(cb, q, data[i..j])
    ensures Count(cb, false, c, q0, data[..j]) == Count(cb, false, c, q0, data[..i]) + (j - i)
    ensures var r := Fold(cb, false, q0, data[..j]); Counts(r) && r.p.state == q.p.state
    ensures i < j == |data| ==> Tally(cb, c, q0, data) == Count(cb, false, c, q0, data[..i]) + (j - i) + 1
  {
    hide Count, Fold;
    assert data[..j] == data[..i] + data[i..j] && data[i..j][..j - i] == data[i..j];
    FoldConcat(cb, false, q0, data[..i], data[i..j]);
    CountConcat(cb, false, c, q0, data[..i], data[i..j]);
    LineCount(cb, Count(cb, false, c, q0, data[..i]), q, data[i..j]);
    if i < j == |data| {
      assert data[..j] == data;
      assert data[..j - 1] == data[..i] + data[i..j - 1] && data[i..j][..j - i - 1] == data[i..j - 1];
      FoldConcat(cb, false, q0, data[..i], data[i..j - 1]);
    }
  }

  /** The byte that ends a name or value ends the line stretch. */
  lemma {:induction false} LineEnds(cb: Callbacks, q: Run, ch: char)
    requires Inv(q.p) && q.p.errno.OK? && !q.halted
    requires (q.p.state.SHeaderField? && !IsToken(ch)) || (q.p.state.SHeaderValue? && (ch == CR || ch == LF))
    ensures var r := Step(cb, false, q, ch); !(r.p.errno.OK? && r.p.state == q.p.state)
  {
    hide Inv, IsToken, Noted, FieldStep, StartCase, UrlCase, ProtocolCase, VersionCase, DiscardCase, EndCase, BodyCase,
         ValueByte;
    var e := Case(cb, q.p, q.checked, ch);
    assert e == if q.p.state.SHeaderField? then FieldCase(q.p, ch) else ValueCase(q.p, q.checked, ch);
    if e.ctl.Again? {
      assert Case(cb, e.p, false, ch) == ValueEdgeCase(e.p, ch) == Go(e.p, SHeaderValueLws);
      StepAgain(cb, false, q, ch, e);
    }
  }

  /** The counter across byte `j`, at which the run stands outside a body. */
  lemma {:induction false} BytePassed(cb: Callbacks, c: nat, q0: Run, data: string, j: nat)
    requires Inv(q0.p) && j < |data|
    requires var r := Fold(cb, false, q0, data[..j]);
             && r.p.errno.OK? && !r.halted
             && (r.p.state.SHeaderField? ==> !IsToken(data[j]))
             && (r.p.state.SHeaderValue? ==> data[j] == CR || data[j] == LF)
    ensures var r := Fold(cb, false, q0, data[..j]);
            Count(cb, false, c, q0, data[..j + 1]) ==
            if Resets(cb, r.p, data[j]) then 0
            else Count(cb, false, c, q0, data[..j]) + if ParsingHeader(r.p.state) then 1 else 0
    ensures !Continued(cb, q0, data[..j + 1])
  {
    hide Count, Fold, Step, Resets, IsToken;
    CountPrefix(cb, false, c, q0, data, j);
    FoldPrefix(cb, false, q0, data, j);
    assert data[..j + 1][..j] == data[..j];
    var r := Fold(cb, false, q0, data[..j]);
    if LineOpen(r.p.state) { LineEnds(cb, r, data[j]); }
  }

  /** There is room for a stretch of a name or value if there is for its last byte. */
  lemma {:induction false} LineRoomy(cb: Callbacks, c: nat, q0: Run, q: Run, data: string, i: nat, j: nat)
    requires Inv(q0.p) && i <= j <= |data| && q == Fold(cb, false, q0, data[..i]) && InLine(cb, q, data[i..j])
    requires Roomy(cb, c, q0, data, i) && Count(cb, false, c, q0, data[..j]) <= MAX_HEADER_SIZE
    ensures Roomy(cb, c, q0, data, j)
  {
    hide Count, Fold, InLine, Counts;
    LinePassed(cb, c, q0, q, data, i, j);
    forall k: nat | i <= k < j
      ensures !NoRoom(cb, c, q0, data, k)
    {
      InLinePrefix(cb, q, data[i..j], k - i);
      assert data[i..j][..k - i] == data[i..k];
      LinePassed(cb, c, q0, q, data, i, k);
    }
  }

  /** Body bytes need no room. */
  lemma {:induction false} BodyRoomy(cb: Callbacks, c: nat, q0: Run, q: Run, data: string, i: nat, n: nat)
    requires Inv(q0.p) && i + n <= |data| && q == Fold(cb, false, q0, data[..i]) && n <= q.p.contentLength
    requires Inv(q.p) && q.p.errno.OK? && BodyRunState(q.p.state) && !q.halted && !q.checked
    requires Roomy(cb, c, q0, data, i)
    ensures Roomy(cb, c, q0, data, i + n)
  {
    hide Count, Fold;
    forall k: nat | i <= k < i + n
      ensures !NoRoom(cb, c, q0, data, k)
    {
      BodyStretch(cb, false, q, data[i..k]);
      assert data[..k] == data[..i] + data[i..k];
      FoldConcat(cb, false, q0, data[..i], data[i..k]);
    }
  }

  /** A parser that has stopped needs no more room. */
  lemma {:induction false} StoppedRoomy(cb: Callbacks, c: nat, q0: Run, data: string, i: nat)
    requires Inv(q0.p) && i <= |data| && Roomy(cb, c, q0, data, i)
    requires var q := Fold(cb, false, q0, data[..i]); q.halted || !q.p.errno.OK?
    ensures Roomy(cb, c, q0, data, |data|)
  {
    hide Count, Fold;
    forall k: nat | i <= k < |data|
      ensures !NoRoom(cb, c, q0, data, k)
    {
      assert data[..k] == data[..i] + data[i..k];
      FoldConcat(cb, false, q0, data[..i], data[i..k]);
      FoldStopped(cb, false, Fold(cb, false, q0, data[..i]), data[i..k]);
    }
  }

  lemma {:induction false} ByteRoomy(cb: Callbacks, c: nat, q0: Run, data: string, j: nat)
    requires Inv(q0.p) && j < |data| && Roomy(cb, c, q0, data, j)
    requires Counts(Fold(cb, false, q0, data[..j])) ==> Count(cb, false, c, q0, data[..j]) < MAX_HEADER_SIZE
    ensures Roomy(cb, c, q0, data, j + 1)
  {
    hide Count, Fold;
  }

  lemma {:induction false} RoomyAll(cb: Callbacks, c: nat, q0: Run, data: string)
    requires Inv(q0.p) && Roomy(cb, c, q0, data, |data|) && Tally(cb, c, q0, data) <= MAX_HEADER_SIZE
    ensures !Overfull(cb, c, q0, data)
  {
    hide Count, Fold, Tally;
  }

  /** Byte `j` is a header byte, and there is no room for it. */
  lemma {:induction false} RoomGone(cb: Callbacks, c: nat, q0: Run, data: string, j: nat)
    requires Inv(q0.p) && j <= |data| && Counts(Fold(cb, false, q0, data[..j]))
    requires (if j == |data| then Tally(cb, c, q0, data) else Count(cb, false, c, q0, data[..j]) + 1) > MAX_HEADER_SIZE
    ensures Overfull(cb, c, q0, data)
  {
    hide Count, Fold;
    if j < |data| { assert NoRoom(cb, c, q0, data, j); }
  }

  lemma {:induction false} OverflowAt(cb: Callbacks, c: nat, q0: Run, r: Run, p: Parser, raw: seq<Event>,
                                      data: string, j: nat, m: Marks)
    requires Inv(q0.p) && j <= |data| && InSlice(m, j) && r == Fold(cb, false, q0, data[..j])
    requires r.log == WithMark(Merged(raw), m, data, j) && p.errno.HeaderOverflow? && Overfull(cb, c, q0, data)
    ensures Overflowed(cb, c, q0, p, raw, data)
  {
    hide Fold, Merged, WithMark, Overfull, Undelivered;
    MarkUndelivered(Merged(raw), m, data, j);
  }

  /** A value that runs beyond the header size limit. */
  lemma {:induction false} FarOverflow(cb: Callbacks, c: nat, q0: Run, q: Run, data: string, i: nat)
    requires Inv(q0.p) && i + MAX_HEADER_SIZE < |data| && q == Fold(cb, false, q0, data[..i])
    requires InLine(cb, q, data[i..i + MAX_HEADER_SIZE])
    ensures Overfull(cb, c, q0, data)
  {
    hide Count, Fold, InLine, Tally;
    LinePassed(cb, c, q0, q, data, i, i + MAX_HEADER_SIZE);
    RoomGone(cb, c, q0, data, i + MAX_HEADER_SIZE);
  }

  /** An error inside a value. */
  lemma {:induction false} ValueFailed(cb: Callbacks, raw: seq<Event>, q0: Run, q: Run, data: string, i: nat, j: nat,
                                       m: Marks)
    requires Inv(q0.p) && Inv(q.p) && i <= j < |data| && q == Fold(cb, false, q0, data[..i]) && q.consumed == i
    requires InSlice(m, i) && m.field.None? && m.value.Some? && q.log == WithMark(Merged(raw), m, data, i)
    requires var r := Fold(cb, false, q, data[i..j + 1]);
             r.halted && r.consumed == j && r.log == EmitSlice(q.log, Value, data[i..j])
    ensures var f := Fold(cb, false, q0, data);
            f.p.errno == Fold(cb, false, q, data[i..j + 1]).p.errno && f.consumed == j && Undelivered(Merged(raw), f.log)
  {
    hide Fold, Merged, EmitSlice, Inv;
    FoldConcat(cb, false, q0, data[..i], data[i..j + 1]);
    assert data[..j + 1] == data[..i] + data[i..j + 1];
    FoldConcat(cb, false, q0, data[..j + 1], data[j + 1..]);
    assert data == data[..j + 1] + data[j + 1..];
    FoldStopped(cb, false, Fold(cb, false, q0, data[..j + 1]), data[j + 1..]);
    var a := m.value.value;
    assert data[a..i] + data[i..j] == data[a..j];
    EmitSliceExtend(Merged(raw), Value, data[a..i], data[i..j]);
  }

  // ---------------------------------------------------------------- the parser object

  /**
   * The parser's answer `p`, its callbacks and the number of bytes it took, against the run `q`. In error the state
   * is of no more use, and a piece of data that was still open has not been delivered.
   */
  ghost predicate Agrees(p: Parser, raw: seq<Event>, parsed: nat, q: Run) {
    && p.errno == q.p.errno && parsed == q.consumed
    && if Failed(p) then Undelivered(Merged(raw), q.log) else p == q.p && Merged(raw) == q.log
  }

  /**
   * The answer after a header overflow: the slice has more header bytes than there is room for, and the callbacks
   * are those of the run up to some byte of it.
   */
  ghost predicate Overflowed(cb: Callbacks, c: nat, q0: Run, p: Parser, raw: seq<Event>, data: string)
    requires Inv(q0.p)
  {
    && p.errno.HeaderOverflow? && Overfull(cb, c, q0, data)
    && exists i: nat :: i <= |data| && Undelivered(Merged(raw), Fold(cb, false, q0, data[..i]).log)
  }

  class RequestParser {
    const cb: Callbacks
    var st: Parser        // the fields of struct http_parser
    var nread: nat        // header bytes counted so far
    var log: seq<Event>   // the callbacks run so far

    ghost function View(): Run
      reads this
    {
      Run(st, Merged(log), false, false, 0)
    }

    ghost predicate Valid()
      reads this
    {
      RunInv(View()) && (!Failed(st) ==> nread <= MAX_HEADER_SIZE && (st.state.SChunkSizeStart? ==> nread == 0))
    }

    constructor (callbacks: Callbacks)
      ensures Valid() && cb == callbacks && st == INIT && nread == 0 && log == []
    {
      cb, st, nread, log := callbacks, INIT, 0, [];
    }

    /** `http_parser_pause`. */
    method Pause(paused: bool)
      requires Valid() && !Failed(st)
      modifies this`st
      ensures Valid() && st == old(st).(errno := if paused then Paused else OK)
    {
      st := st.(errno := if paused then Paused else OK);
    }

    /** The record of callbacks starts afresh, between two requests. */
    method ForgetLog()
      requires Valid() && OpenKind(st.state).None?
      modifies this`log
      ensures Valid() && log == []
    {
      log := [];
    }

    /**
     * The switch on byte `data[i]` with its `reexecute` jumps, outside the stretches taken by inner loops.
     * The run `q0` stands at this byte.
     */
    method Reexecute(data: string, i: nat, m0: Marks, ghost q0: Run) returns (m: Marks, ctl: Control)
      requires i < |data| && Inv(st) && st.errno.OK? && !BodyRunState(st.state) && MarksOk(st.state, m0, i)
      requires InSlice(m0, i) && (st.state.SChunkSizeStart? ==> nread == 1)
      requires st.state.SHeaderValue? ==> data[i] == CR || data[i] == LF
      requires RunInv(q0) && q0.p == st && !q0.halted && !q0.checked && q0.log == WithMark(Merged(log), m0, data, i)
      modifies this
      ensures Inv(st) && (st.state.SChunkSizeStart? && !ctl.Fail? ==> nread == 0)
      ensures nread == if Resets(cb, old(st), data[i]) then 0 else old(nread)
      ensures var q := Step(cb, false, q0, data[i]);
              && RunInv(q) && !q.checked
              && (ctl.Next? ==> st.errno.OK? && MarksOk(st.state, m, i + 1) && InSlice(m, i + 1) &&
                                q.p == st && !q.halted && q.consumed == q0.consumed + 1 &&
                                q.log == WithMark(Merged(log), m, data, i + 1))
              && (ctl.Fail? ==> Failed(st) && q.p.errno == st.errno && q.consumed == q0.consumed && q.halted &&
                                Undelivered(Merged(log), q.log))
              && (ctl.Return? ==> q.p == st && q.log == Merged(log) && q.halted &&
                                  q.consumed == q0.consumed + if ctl.advance then 1 else 0)
      ensures old(st.state.SHeaderValue?) && data[i] == CR ==> ctl.Next? && st.state.SHeaderAlmostDone?
      ensures old(log) <= log
      ensures !ctl.Again? && (ctl.Return? && st.errno.OK? ==> !LineOpen(st.state))
    {
      hide Case, MarksOk, MarkRules, WithMark, Merged, Noted, Inv, Step, RunInv, Called, Marked, OpenKind, BodyRunState,
           LastIs;
      m := m0;
      ghost var q := q0;
      while true
        invariant Inv(st) && st.errno.OK? && !BodyRunState(st.state) && MarksOk(st.state, m, i)
        invariant nread == old(nread) && (st.state.SChunkSizeStart? ==> nread == 1)
        invariant Resets(cb, old(st), data[i]) == Resets(cb, st, data[i])
        invariant old(st.state.SHeaderValue?) && data[i] == CR ==> st == old(st)
        invariant old(log) <= log
        invariant st.state.SHeaderValue? ==> data[i] == CR || data[i] == LF
        invariant RunInv(q) && q.p == st && !q.halted && !q.checked && q.consumed == q0.consumed
        invariant InSlice(m, i) && q.log == WithMark(Merged(log), m, data, i)
        invariant Step(cb, false, q0, data[i]) == Step(cb, false, q, data[i])
        decreases Rank(st.state)
      {
        var e := Case(cb, st, false, data[i]);
        CaseMarks(cb, st, data[i]);
        if st.state.SHeaderValue? { CaseAtLineEnd(cb, st, data[i]); }
        OpenLast(q);
        StepKeepsRunInv(cb, q, data[i]);
        if e.ctl.Fail? {
          StepEnds(cb, q, data[i], e);
          FailUndelivered(cb, q, Merged(log), m, data, i, e);
          st, ctl := e.p, Fail;
          return;
        }
        CaseLogged(log, st, e, m, data, i);
        CountRule(st, e);
        log, m := Called(log, m, e, data, i), Marked(m, e, i);
        if ResetsCount(st, e) { nread := 0; }
        if e.ctl.Again? {
          StepRedone(cb, q, data[i], e);
          q := Run(e.p, Noted(q.log, e, data[i]), false, false, q.consumed);
          st := e.p;
        } else {
          StepEnds(cb, q, data[i], e);
          ReturnsClosed(e);
          st, ctl := e.p, e.ctl;
          return;
        }
      }
    }

    ghost predicate Reached(q0: Run, q: Run, data: string, i: nat, m: Marks)
      reads this
    {
      ReachedAt(cb, q0, q, st, log, data, i, m)
    }

    /** The counter at byte `i` of a slice that began with the counter at `c`. */
    ghost predicate Counted(c: nat, q0: Run, data: string, i: nat)
      requires Inv(q0.p) && i <= |data|
      reads this
    {
      && nread == (if i == |data| then Tally(cb, c, q0, data) else Count(cb, false, c, q0, data[..i]))
      && nread <= MAX_HEADER_SIZE && Roomy(cb, c, q0, data, i)
    }

    /** How the parser stops inside a slice: a header overflow, or as the byte-by-byte run does. */
    ghost predicate Stopped(c: nat, q0: Run, data: string, parsed: nat)
      reads this
      requires Inv(q0.p)
    {
      Valid() &&
      (Overflowed(cb, c, q0, st, log, data) ||
       (Agrees(st, log, parsed, Fold(cb, false, q0, data)) &&
        (!Failed(st) ==> nread == Tally(cb, c, q0, data) && !Overfull(cb, c, q0, data))))
    }

    /** `COUNT_HEADER_SIZE(n)`. */
    method CountHeader(n: nat) returns (overflow: bool)
      modifies this`st, this`nread
      ensures nread == old(nread) + n && overflow == (nread > MAX_HEADER_SIZE)
      ensures st == if overflow then old(st).(errno := HeaderOverflow) else old(st)
    {
      nread := nread + n;
      overflow := nread > MAX_HEADER_SIZE;
      if overflow { st := st.(errno := HeaderOverflow); }
    }

    /** `s_header_field`: the rest of a header name, as far as this slice goes. */
    method InField(data: string, i: nat, m: Marks, ghost q0: Run, ghost q: Run) returns (j: nat, ghost r: Run)
      requires Reached(q0, q, data, i, m) && st.state.SHeaderField? && i < |data| && !q.checked
      modifies this`st
      ensures i <= j <= |data| && Reached(q0, r, data, j, m) && st.state.SHeaderField? && !r.checked
      ensures j < |data| ==> !IsToken(data[j])
      ensures InLine(cb, q, data[i..j])
    {
      hide Fold, Merged, EmitSlice, InLine;
      st, j := FieldRun(cb, st, data, i, q);
      r := Fold(cb, false, q, data[i..j]);
      StretchReached(cb, log, q0, q, data, i, j, m, st, Field, false);
    }

    /**
     * `s_header_value`: the rest of a header value up to its CR or LF, as far as this slice goes. A value that runs
     * beyond the header size limit is not followed further.
     */
    method InValue(data: string, i: nat, m: Marks, ghost q0: Run, ghost q: Run) returns (j: nat, ghost r: Run)
      requires Reached(q0, q, data, i, m) && st.state.SHeaderValue? && i < |data| && !q.checked
      modifies this`st
      ensures i <= j <= |data|
      ensures st.errno.OK? ==> Inv(st) && st.state.SHeaderValue?
      ensures st.errno.OK? && SkippedFar(data, i, j) ==> InLine(cb, q, data[i..i + MAX_HEADER_SIZE])
      ensures st.errno.OK? && !SkippedFar(data, i, j) ==>
                Reached(q0, r, data, j, m) && InLine(cb, q, data[i..j]) && (j < |data| ==> data[j] == CR || data[j] == LF)
      ensures !st.errno.OK? ==> Failed(st) && Agrees(st, log, j, Fold(cb, false, q0, data))
    {
      hide Fold, Merged, EmitSlice, InLine, Undelivered;
      ghost var checked;
      r := q;
      st, j, checked := ValueRun(cb, st, data, i, q);
      if !st.errno.OK? {
        ValueFailed(cb, log, q0, q, data, i, j, m);
      } else if !SkippedFar(data, i, j) {
        r := Fold(cb, false, q, data[i..j]);
        StretchReached(cb, log, q0, q, data, i, j, m, st, Value, checked);
      }
    }

    /**
     * `s_body_identity` and `s_chunk_data`: all the body bytes the slice still has. `again` is set when they
     * complete an identity body: then the last one, at `j`, is seen once more by `s_message_done`.
     */
    method InBody(data: string, i: nat, m0: Marks, ghost c: nat, ghost q0: Run, ghost q: Run)
      returns (j: nat, m: Marks, again: bool, ghost r: Run)
      requires Reached(q0, q, data, i, m0) && BodyRunState(st.state) && i < |data| && !q.checked
      modifies this`st, this`log
      ensures old(log) <= log
      ensures !again ==> i < j && Reached(q0, r, data, j, m) && !r.checked && !st.state.SChunkSizeStart?
      ensures again ==> i <= j < |data| && m == NO_MARKS && st.state.SMessageDone? && st.errno.OK?
      ensures again ==> RunInv(r) && r.p == st && !r.halted && !r.checked && r.consumed == j &&
                        InSlice(m, j) && MarksOk(st.state, m, j) && r.log == WithMark(Merged(log), m, data, j) &&
                        Step(cb, false, r, data[j]) == Fold(cb, false, q0, data[..j + 1])
      ensures var k := if again then j + 1 else j;
              k <= |data| && Count(cb, false, c, q0, data[..k]) == Count(cb, false, c, q0, data[..i]) &&
              !Continued(cb, q0, data[..k]) && (Roomy(cb, c, q0, data, i) ==> Roomy(cb, c, q0, data, k))
    {
      hide Fold, Step, EmitSlice, Emit, Merged, Flushed, Count;
      var n := if st.contentLength < |data| - i then st.contentLength else |data| - i;
      m := BodyMarked(m0, i);
      BodyPassed(cb, c, q0, q, data, i, n);
      if Roomy(cb, c, q0, data, i) { BodyRoomy(cb, c, q0, q, data, i, n); }
      if n < st.contentLength || st.state.SChunkData? {
        BodyReached(cb, log, q0, q, data, i, n, m0);
        r, again := Fold(cb, false, q, data[i..i + n]), false;
        st := if n < st.contentLength then st.(contentLength := st.contentLength - n)
              else st.(contentLength := 0, state := SChunkDataAlmostDone);
        j := i + n;
      } else {
        BodyCompleted(cb, log, q0, q, data, i, m0);
        j, again := i + n - 1, true;
        log, m := Flushed(log, m, Body, data, i + n), NO_MARKS;
        st := st.(contentLength := 0, state := SMessageDone);
        r := Run(st, Merged(log), false, false, j);
      }
    }

    /**
     * The switch on byte `data[i]`, where the run `r` stands, and how it leaves the loop. With this byte the counter
     * comes to `n`, unless it is reset; `run` bytes of a value are counted after the switch.
     */
    method Switch(data: string, i: nat, m0: Marks, run: nat, ghost n: nat, ghost c: nat, ghost q0: Run, ghost r: Run)
      returns (j: nat, m: Marks, ctl: Control, ghost q: Run)
      requires i < |data| && Inv(st) && st.errno.OK? && !BodyRunState(st.state) && MarksOk(st.state, m0, i)
      requires InSlice(m0, i) && (st.state.SChunkSizeStart? ==> nread == 1)
      requires st.state.SHeaderValue? ==> data[i] == CR || data[i] == LF
      requires RunInv(q0) && RunInv(r) && r.p == st && !r.halted && !r.checked && r.consumed == i
      requires r.log == WithMark(Merged(log), m0, data, i)
      requires Step(cb, false, r, data[i]) == Fold(cb, false, q0, data[..i + 1])
      requires nread + run == n && (run > 0 ==> st.state.SHeaderValue? && data[i] == CR)
      requires nread <= MAX_HEADER_SIZE
      requires if n > MAX_HEADER_SIZE then Overfull(cb, c, q0, data) else Roomy(cb, c, q0, data, i + 1)
      requires Count(cb, false, c, q0, data[..i + 1]) == if Resets(cb, st, data[i]) then 0 else n
      requires !Continued(cb, q0, data[..i + 1])
      modifies this
      ensures old(log) <= log
      ensures run == 0 ==> nread == if Resets(cb, old(st), data[i]) then 0 else old(nread)
      ensures ctl.Next? ==> j == i + 1 && Reached(q0, q, data, j, m) && !q.checked && Counted(c, q0, data, j) &&
                            (st.state.SChunkSizeStart? ==> nread == 0)
      ensures !ctl.Next? ==> Stopped(c, q0, data, j)
    {
      hide Fold, Step, Merged, WithMark, MarksOk, EmitSlice, Count, Resets, Overfull, Undelivered, Continued;
      if st.state.SHeaderValue? { NoReset(cb, st, data[i]); }
      m, ctl := Reexecute(data, i, m0, r);
      q := Fold(cb, false, q0, data[..i + 1]);
      if ctl.Next? {
        j := i + 1;
        if run > 0 {
          var overflow := CountHeader(run);
          if overflow {
            ctl := Fail;
            OverflowAt(cb, c, q0, q, st, log, data, j, m);
            return;
          }
        }
        if j == |data| { assert data[..j] == data; }
      } else {
        j := if ctl.Return? && ctl.advance then i + 1 else i;
        StoppedCount(cb, c, q0, data, i + 1);
        NothingUndelivered(q.log);
        StoppedRoomy(cb, c, q0, data, i + 1);
        if !Failed(st) { RoomyAll(cb, c, q0, data); }
      }
    }

    /** The inner loop over a name or value with its count; of the bytes passed, `run` are still to be counted. */
    method LineStretch(data: string, i: nat, m: Marks, ghost c: nat, ghost q0: Run, ghost q: Run)
      returns (j: nat, run: nat, stop: bool, ghost r: Run)
      requires Reached(q0, q, data, i, m) && LineOpen(st.state) && i < |data| && !q.checked
      requires nread == Count(cb, false, c, q0, data[..i]) + 1 <= MAX_HEADER_SIZE && Roomy(cb, c, q0, data, i)
      modifies this`st, this`nread
      ensures i <= j <= |data|
      ensures stop ==> Stopped(c, q0, data, j)
      ensures !stop ==> Reached(q0, r, data, j, m) && LineOpen(st.state) &&
                        (j < |data| && st.state.SHeaderField? ==> !IsToken(data[j])) &&
                        (j < |data| && st.state.SHeaderValue? ==> data[j] == CR || data[j] == LF) &&
                        (run > 0 ==> j < |data| && data[j] == CR && st.state.SHeaderValue?) &&
                        nread + run == (if j == |data| then Tally(cb, c, q0, data)
                                        else Count(cb, false, c, q0, data[..j]) + 1) &&
                        nread <= MAX_HEADER_SIZE &&
                        (nread + run <= MAX_HEADER_SIZE ==> Roomy(cb, c, q0, data, j))
    {
      hide Fold, Step, Merged, EmitSlice, MarksOk, WithMark, InSlice, InLine, Count, Continued, Undelivered, Overfull,
           Roomy, Tally;
      var far := false;
      if st.state.SHeaderField? {
        j, r := InField(data, i, m, q0, q);
      } else {
        j, r := InValue(data, i, m, q0, q);
        if !st.errno.OK? { run, stop := 0, true; return; }
        far := SkippedFar(data, i, j);
      }
      run, stop := j - i, false;
      if far {
        stop := CountHeader(run);
        FarOverflow(cb, c, q0, q, data, i);
        OverflowAt(cb, c, q0, q, st, log, data, i, m);
        return;
      }
      LinePassed(cb, c, q0, q, data, i, j);
      if nread + run <= MAX_HEADER_SIZE { LineRoomy(cb, c, q0, q, data, i, j); }
      if j == |data| || data[j] == LF || st.state.SHeaderField? {
        stop := CountHeader(run);
        run := 0;
        if stop {
          RoomGone(cb, c, q0, data, j);
          OverflowAt(cb, c, q0, r, st, log, data, j, m);
        }
      }
    }

    /** The switch on byte `data[j]`, at which the run `r` stands outside a body, with `run` bytes still to be counted. */
    method SwitchAt(data: string, j: nat, m0: Marks, run: nat, ghost c: nat, ghost q0: Run, ghost r: Run)
      returns (k: nat, m: Marks, ctl: Control, ghost q: Run)
      requires j < |data| && Reached(q0, r, data, j, m0) && !BodyRunState(st.state)
      requires st.state.SChunkSizeStart? ==> nread == 1
      requires st.state.SHeaderField? ==> !IsToken(data[j])
      requires st.state.SHeaderValue? ==> data[j] == CR || data[j] == LF
      requires run > 0 ==> st.state.SHeaderValue? && data[j] == CR
      requires nread + run == Count(cb, false, c, q0, data[..j]) + if ParsingHeader(st.state) then 1 else 0
      requires nread <= MAX_HEADER_SIZE && (nread + run <= MAX_HEADER_SIZE ==> Roomy(cb, c, q0, data, j))
      modifies this
      ensures old(log) <= log
      ensures ctl.Next? ==> k == j + 1 && Reached(q0, q, data, k, m) && !q.checked && Counted(c, q0, data, k) &&
                            (st.state.SChunkSizeStart? ==> nread == 0)
      ensures !ctl.Next? ==> Stopped(c, q0, data, k)
    {
      hide Fold, Step, Merged, EmitSlice, MarksOk, WithMark, Count, Resets, Continued, Undelivered, Overfull, Roomy,
           LastIs, IsToken, UrlState, Agrees, Inv;
      BytePassed(cb, c, q0, data, j);
      if nread + run > MAX_HEADER_SIZE { RoomGone(cb, c, q0, data, j); } else { ByteRoomy(cb, c, q0, data, j); }
      StandsAt(cb, q0, r, data, j);
      k, m, ctl, q := Switch(data, j, m0, run, nread + run, c, q0, r.(checked := false));
    }

    /** A turn that starts in a body. */
    method BodyTurn(data: string, i: nat, m0: Marks, ghost c: nat, ghost q0: Run, ghost q: Run)
      returns (j: nat, m: Marks, ctl: Control, ghost r: Run)
      requires i < |data| && Reached(q0, q, data, i, m0) && !q.checked && Counted(c, q0, data, i) && BodyRunState(st.state)
      modifies this
      ensures old(log) <= log && nread == old(nread)
      ensures ctl.Next? ==> i < j && Reached(q0, r, data, j, m) && !r.checked && Counted(c, q0, data, j) &&
                            (st.state.SChunkSizeStart? ==> nread == 0)
      ensures !ctl.Next? ==> Stopped(c, q0, data, j)
    {
      hide Fold, Step, Merged, EmitSlice, MarksOk, WithMark, Count, Resets, Continued, Undelivered, Overfull, Roomy,
           LastIs, UrlState, InSlice, Agrees;
      var again;
      j, m, again, r := InBody(data, i, m0, c, q0, q);
      if again {
        NoReset(cb, st, data[j]);
        assert Roomy(cb, c, q0, data, j + 1);
        StandsAt(cb, q0, r, data, j);
        j, m, ctl, r := Switch(data, j, m, 0, nread, c, q0, r.(checked := false));
      } else {
        ctl := Next;
        if j == |data| { assert data[..j] == data; }
      }
    }

    /** One turn of the parser's loop: from byte `i` to a later byte, or to the end of the slice's run. */
    method Turn(data: string, i: nat, m0: Marks, ghost c: nat, ghost q0: Run, ghost q: Run)
      returns (j: nat, m: Marks, ctl: Control, ghost r: Run)
      requires i < |data| && Reached(q0, q, data, i, m0) && !q.checked && Counted(c, q0, data, i)
      requires st.state.SChunkSizeStart? ==> nread == 0
      modifies this
      ensures old(log) <= log
      ensures ctl.Next? ==> i < j && Reached(q0, r, data, j, m) && (r.checked ==> j == |data|) &&
                            Counted(c, q0, data, j) && (st.state.SChunkSizeStart? ==> nread == 0)
      ensures !ctl.Next? ==> Stopped(c, q0, data, j)
      ensures old(BodyRunState(st.state)) ==> nread == old(nread)
    {
      hide Fold, Step, Merged, EmitSlice, MarksOk, WithMark, Count, Resets, Continued, Undelivered, Overfull, Roomy,
           LastIs, IsToken, UrlState, Agrees;
      if BodyRunState(st.state) {
        j, m, ctl, r := BodyTurn(data, i, m0, c, q0, q);
        return;
      }
      j, m, r := i, m0, q;
      if ParsingHeader(st.state) {
        var overflow := CountHeader(1);
        if overflow {
          ctl := Fail;
          RoomGone(cb, c, q0, data, i);
          OverflowAt(cb, c, q0, q, st, log, data, i, m);
          return;
        }
      }
      var run := 0;
      if LineOpen(st.state) {
        var stop;
        j, run, stop, r := LineStretch(data, i, m, c, q0, q);
        if stop { ctl := Fail; return; }
        if j == |data| { ctl := Next; return; }
      }
      j, m, ctl, r := SwitchAt(data, j, m, run, c, q0, r);
    }

    /**
     * `http_parser_execute` on one slice of input. An empty slice is the end of the connection. Otherwise, but
     * for a header overflow, the parser, its callbacks, the byte count and the header size counter are those of the
     * byte-by-byte run. Without a parser error there is a header overflow exactly if there is no room for the header
     * bytes.
     */
    method Execute(data: string) returns (parsed: nat)
      requires Valid() && |data| < 0x8000_0000
      modifies this
      ensures Valid() && old(log) <= log
      ensures old(!st.errno.OK?) ==> parsed == 0 && st == old(st) && log == old(log)
      ensures old(st.errno.OK?) && data == "" ==>
                log == old(log) && nread == old(nread) &&
                if old(st.state.SDead? || st.state.SStartReq?) then parsed == 0 && st == old(st)
                else parsed == 1 && st == old(st).(errno := InvalidEofState)
      ensures data != "" ==>
                Overflowed(cb, old(nread), old(View()), st, log, data) ||
                (Agrees(st, log, parsed, Fold(cb, false, old(View()), data)) &&
                 (!Failed(st) ==> nread == Tally(cb, old(nread), old(View()), data) &&
                                  !Overfull(cb, old(nread), old(View()), data)))
    {
      hide Fold, Merged, EmitSlice, MarksOk, WithMark, InSlice, Count, Continued, Undelivered, Overfull, Roomy;
      ghost var q0, c := View(), nread;
      if !st.errno.OK? {
        StoppedSlice(cb, c, q0, log, data);
        return 0;
      }
      if data == "" {
        if st.state.SDead? || st.state.SStartReq? { return 0; }
        st := st.(errno := InvalidEofState);
        return 1;
      }
      var m := StartMarksOf(st.state);
      ghost var q := q0;
      SliceStart(cb, st, log, data);
      NothingCounted(cb, c, q0, data);
      var i := 0;
      while i < |data|
        invariant Reached(q0, q, data, i, m) && (q.checked ==> i == |data|)
        invariant Counted(c, q0, data, i)
        invariant st.state.SChunkSizeStart? ==> nread == 0
        invariant old(log) <= log
        decreases |data| - i
      {
        var ctl;
        i, m, ctl, q := Turn(data, i, m, c, q0, q);
        if !ctl.Next? { return i; }
      }
      assert data[..|data|] == data;
      SliceEnd(log, q, m, data);
      assert AtMostOneMark(m);
      RoomyAll(cb, c, q0, data);
      log := FlushedAll(log, m, data);
      parsed := |data|;
    }
  }
}
