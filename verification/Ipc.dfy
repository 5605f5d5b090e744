/**
 The request and response codec between the compiler wrapper and the daemon. Each program has its own
 copy of the helpers; the wrapper encodes requests and decodes responses, the daemon the other way round.
 */
module Ipc {
  import opened Bytes
  import opened Framing

  /** A `std::string`. */
  type Text = seq<byte>

  datatype Request = Request(cwd: Text, args: seq<Text>)
  datatype Response = Response(exitCode: int, stdout: Text, stderr: Text)

  const TWO_31: int := 0x8000_0000

  ghost predicate IsInt32(e: int) { -TWO_31 <= e < TWO_31 }

  /** `static_cast<uint32_t>(int)` and back. */
  function WordOfInt(e: int): nat
    requires IsInt32(e)
  { if e < 0 then e + TWO_32 else e }

  function IntOfWord(w: nat): int
    requires w < TWO_32
  { if w < TWO_31 then w else w - TWO_32 }

  // ---- What the encoders put on the wire -------------------------------------------------------

  function StringField(s: Text): seq<byte> { U32Bytes(Truncate32(|s|)) + s }

  function StringFields(ss: seq<Text>): seq<byte>
  {
    if ss == [] then [] else StringFields(ss[..|ss| - 1]) + StringField(ss[|ss| - 1])
  }

  function RequestBytes(r: Request): seq<byte>
  {
    StringField(r.cwd) + U32Bytes(Truncate32(|r.args|)) + StringFields(r.args)
  }

  function ResponseBytes(r: Response): seq<byte>
    requires IsInt32(r.exitCode)
  {
    U32Bytes(WordOfInt(r.exitCode)) + StringField(r.stdout) + StringField(r.stderr)
  }

  // ---- What the decoders read; None stands for a read outside the buffer ------------------------

  function WordAt(data: seq<byte>, offset: nat): Option<(nat, nat)>
  {
    if offset + 4 <= |data| then Some((ReadU32(data, offset), offset + 4)) else None
  }

  function StringAt(data: seq<byte>, offset: nat): Option<(Text, nat)>
  {
    match WordAt(data, offset)
    case None => None
    case Some((len, start)) =>
      if start + len <= |data| then Some((data[start..start + len], start + len)) else None
  }

  function StringsAt(data: seq<byte>, offset: nat, n: nat): (r: Option<(seq<Text>, nat)>)
    ensures r.Some? ==> |r.value.0| == n
  {
    if n == 0 then Some(([], offset)) else
    match StringsAt(data, offset, n - 1)
    case None => None
    case Some((ss, next)) =>
      match StringAt(data, next)
      case None => None
      case Some((s, end)) => Some((ss + [s], end))
  }

  function RequestOf(data: seq<byte>): Option<(Request, nat)>
  {
    match StringAt(data, 0)
    case None => None
    case Some((cwd, a)) =>
      match WordAt(data, a)
      case None => None
      case Some((argc, b)) =>
        match StringsAt(data, b, argc)
        case None => None
        case Some((args, end)) => Some((Request(cwd, args), end))
  }

  function ResponseOf(data: seq<byte>): Option<(Response, nat)>
  {
    match WordAt(data, 0)
    case None => None
    case Some((w, a)) =>
      match StringAt(data, a)
      case None => None
      case Some((o, b)) =>
        match StringAt(data, b)
        case None => None
        case Some((e, end)) => Some((Response(IntOfWord(w), o, e), end))
  }

  // ---- Round trips -----------------------------------------------------------------------------

  ghost predicate Fits(s: Text) { |s| < TWO_32 }

  ghost predicate RequestFits(r: Request) {
    Fits(r.cwd) && |r.args| < TWO_32 && AllFit(r.args)
  }

  ghost predicate ResponseFits(r: Response) { Fits(r.stdout) && Fits(r.stderr) }

  ghost predicate At(data: seq<byte>, offset: nat, field: seq<byte>) {
    offset + |field| <= |data| && data[offset..offset + |field|] == field
  }

  lemma AtSplit(data: seq<byte>, offset: nat, a: seq<byte>, b: seq<byte>)
    requires At(data, offset, a + b)
    ensures At(data, offset, a) && At(data, offset + |a|, b)
  {
    var f := data[offset..offset + |a + b|];
    assert data[offset..offset + |a|] == f[..|a|] == a;
    assert data[offset + |a|..offset + |a| + |b|] == f[|a|..] == b;
  }

  /** A string field read where it was written comes back cut to its length modulo 2^32. */
  lemma StringFieldAt(data: seq<byte>, offset: nat, s: Text)
    requires At(data, offset, StringField(s))
    ensures StringAt(data, offset) == Some((s[..Truncate32(|s|)], offset + 4 + Truncate32(|s|)))
  {
    var n := Truncate32(|s|);
    AtSplit(data, offset, U32Bytes(n), s);
    ReadBack(n, data, offset);
    var body := data[offset + 4..offset + 4 + |s|];
    assert body == s;
    assert data[offset + 4..offset + 4 + n] == body[..n];
  }

  lemma StringFieldExact(data: seq<byte>, offset: nat, s: Text)
    requires At(data, offset, StringField(s))
    ensures Fits(s) ==> StringAt(data, offset) == Some((s, offset + |StringField(s)|))
    ensures StringAt(data, offset).Some? && (StringAt(data, offset).value.0 == s ==> Fits(s))
  {
    StringFieldAt(data, offset, s);
    if Fits(s) { assert s[..|s|] == s; }
  }

  ghost predicate AllFit(ss: seq<Text>) { forall s | s in ss :: Fits(s) }

  lemma NoStrings(data: seq<byte>, offset: nat)
    ensures StringFields([]) == [] && StringsAt(data, offset, 0) == Some(([], offset))
  {
  }

  lemma LastField(ss: seq<Text>)
    requires ss != []
    ensures StringFields(ss) == StringFields(ss[..|ss| - 1]) + StringField(ss[|ss| - 1])
  {
  }

  lemma {:induction false} StringFieldsRead(data: seq<byte>, offset: nat, ss: seq<Text>)
    requires At(data, offset, StringFields(ss)) && AllFit(ss)
    ensures StringsAt(data, offset, |ss|) == Some((ss, offset + |StringFields(ss)|))
  {
    hide StringFields, StringField, StringsAt, StringAt, At, Fits;
    if ss == [] {
      NoStrings(data, offset);
    } else {
      var front, last := ss[..|ss| - 1], ss[|ss| - 1];
      LastField(ss);
      AtSplit(data, offset, StringFields(front), StringField(last));
      StringFieldsRead(data, offset, front);
      var next := offset + |StringFields(front)|;
      StringFieldExact(data, next, last);
      StringsAtStep(data, offset, front, next, last, next + |StringField(last)|);
      assert ss == front + [last];
    }
  }

  lemma StringsAtStep(data: seq<byte>, offset: nat, front: seq<Text>, next: nat, last: Text, end: nat)
    requires StringsAt(data, offset, |front|) == Some((front, next))
    requires StringAt(data, next) == Some((last, end))
    ensures StringsAt(data, offset, |front| + 1) == Some((front + [last], end))
  {
  }

  lemma {:induction false} StringFieldsReadFits(data: seq<byte>, offset: nat, ss: seq<Text>)
    requires At(data, offset, StringFields(ss))
    requires StringsAt(data, offset, |ss|).Some? && StringsAt(data, offset, |ss|).value.0 == ss
    ensures AllFit(ss)
  {
    if ss != [] {
      var front, last := ss[..|ss| - 1], ss[|ss| - 1];
      AtSplit(data, offset, StringFields(front), StringField(last));
      var before := StringsAt(data, offset, |front|).value;
      assert before.0 == ss[..|ss| - 1];
      StringFieldsReadFits(data, offset, front);
      StringFieldsRead(data, offset, front);
      StringFieldExact(data, offset + |StringFields(front)|, last);
      assert StringsAt(data, offset, |ss|).value.0[|ss| - 1] == last;
      assert ss == front + [last];
    }
  }

  lemma RequestParts(r: Request)
    ensures var data := RequestBytes(r); var a := |StringField(r.cwd)|;
      && At(data, 0, StringField(r.cwd))
      && WordAt(data, a) == Some((Truncate32(|r.args|), a + 4))
      && At(data, a + 4, StringFields(r.args)) && |data| == a + 4 + |StringFields(r.args)|
  {
    var data := RequestBytes(r);
    var argc := U32Bytes(Truncate32(|r.args|));
    var head := StringField(r.cwd) + argc;
    assert data[0..|data|] == data;
    AtSplit(data, 0, head, StringFields(r.args));
    AtSplit(data, 0, StringField(r.cwd), argc);
    ReadBack(Truncate32(|r.args|), data, |StringField(r.cwd)|);
  }

  lemma RequestReadsBack(r: Request)
    requires RequestFits(r)
    ensures RequestOf(RequestBytes(r)) == Some((r, |RequestBytes(r)|))
  {
    hide RequestBytes, At, StringFields, StringField, StringAt, WordAt, StringsAt, AllFit;
    var data := RequestBytes(r);
    var a := |StringField(r.cwd)|;
    RequestParts(r);
    StringFieldExact(data, 0, r.cwd);
    StringFieldsRead(data, a + 4, r.args);
    assert StringsAt(data, a + 4, |r.args|) == Some((r.args, |data|));
  }

  lemma RequestReadFits(r: Request)
    requires RequestOf(RequestBytes(r)).Some? && RequestOf(RequestBytes(r)).value.0 == r
    ensures RequestFits(r)
  {
    var data := RequestBytes(r);
    RequestParts(r);
    StringFieldExact(data, 0, r.cwd);
    assert |r.args| == Truncate32(|r.args|);
    StringFieldsReadFits(data, |StringField(r.cwd)| + 4, r.args);
  }

  /** The daemon decodes the wrapper's request, consuming all of it, exactly when every length fits 32 bits. */
  lemma RequestRoundTrip(r: Request)
    ensures RequestOf(RequestBytes(r)) == Some((r, |RequestBytes(r)|)) <==> RequestFits(r)
    ensures RequestOf(RequestBytes(r)).Some? && RequestOf(RequestBytes(r)).value.0 == r ==> RequestFits(r)
  {
    if RequestFits(r) {
      RequestReadsBack(r);
    } else if RequestOf(RequestBytes(r)).Some? && RequestOf(RequestBytes(r)).value.0 == r {
      RequestReadFits(r);
    }
  }

  /** The wrapper decodes the daemon's response, signed exit code included, exactly when both streams fit. */
  lemma ResponseRoundTrip(r: Response)
    requires IsInt32(r.exitCode)
    ensures ResponseOf(ResponseBytes(r)) == Some((r, |ResponseBytes(r)|)) <==> ResponseFits(r)
    ensures ResponseOf(ResponseBytes(r)).Some? && ResponseOf(ResponseBytes(r)).value.0 == r ==> ResponseFits(r)
  {
    var data := ResponseBytes(r);
    var w := WordOfInt(r.exitCode);
    assert At(data, 0, data);
    AtSplit(data, 0, U32Bytes(w) + StringField(r.stdout), StringField(r.stderr));
    AtSplit(data, 0, U32Bytes(w), StringField(r.stdout));
    ReadBack(w, data, 0);
    StringFieldExact(data, 4, r.stdout);
    StringFieldAt(data, 4, r.stdout);
    if Fits(r.stdout) {
      StringFieldExact(data, 4 + |StringField(r.stdout)|, r.stderr);
    }
  }

  // ---- Through the socket: a cut-off payload never decodes to the value that was sent -----------

  lemma WordAtMonotone(data: seq<byte>, more: seq<byte>, offset: nat)
    requires data <= more && WordAt(data, offset).Some?
    ensures WordAt(more, offset) == WordAt(data, offset)
  {
    assert data[offset..offset + 4] == more[offset..offset + 4];
  }

  lemma StringAtMonotone(data: seq<byte>, more: seq<byte>, offset: nat)
    requires data <= more && StringAt(data, offset).Some?
    ensures StringAt(more, offset) == StringAt(data, offset)
    ensures StringAt(data, offset).value.1 <= |data|
  {
    WordAtMonotone(data, more, offset);
    var len := WordAt(data, offset).value.0;
    assert data[offset + 4..offset + 4 + len] == more[offset + 4..offset + 4 + len];
  }

  lemma {:induction false} StringsAtMonotone(data: seq<byte>, more: seq<byte>, offset: nat, n: nat)
    requires data <= more && offset <= |data| && StringsAt(data, offset, n).Some?
    ensures StringsAt(more, offset, n) == StringsAt(data, offset, n)
    ensures StringsAt(data, offset, n).value.1 <= |data|
  {
    if n > 0 {
      StringsAtMonotone(data, more, offset, n - 1);
      StringAtMonotone(data, more, StringsAt(data, offset, n - 1).value.1);
    }
  }

  lemma RequestOfMonotone(data: seq<byte>, more: seq<byte>)
    requires data <= more && RequestOf(data).Some?
    ensures RequestOf(more) == RequestOf(data) && RequestOf(data).value.1 <= |data|
  {
    StringAtMonotone(data, more, 0);
    var a := StringAt(data, 0).value.1;
    WordAtMonotone(data, more, a);
    StringsAtMonotone(data, more, a + 4, WordAt(data, a).value.0);
  }

  lemma ResponseOfMonotone(data: seq<byte>, more: seq<byte>)
    requires data <= more && ResponseOf(data).Some?
    ensures ResponseOf(more) == ResponseOf(data) && ResponseOf(data).value.1 <= |data|
  {
    WordAtMonotone(data, more, 0);
    StringAtMonotone(data, more, 4);
    StringAtMonotone(data, more, StringAt(data, 4).value.1);
  }

  /** What the reader of one framed payload decodes. */
  function Received<T>(stream: seq<byte>, decode: seq<byte> -> Option<(T, nat)>): Option<T>
  {
    match ReadFrame(stream)
    case None => None
    case Some((p, _)) => match decode(p) case None => None case Some((v, _)) => Some(v)
  }

  /** End to end, request direction: what the daemon handles is what the wrapper asked for iff the payload fits. */
  lemma RequestDelivered(r: Request)
    ensures Received(Frame(RequestBytes(r)), RequestOf) == Some(r) <==> |RequestBytes(r)| < TWO_32
  {
    var p := RequestBytes(r);
    var n := Truncate32(|p|);
    ReadFrameOf(p, []);
    assert Frame(p) + [] == Frame(p);
    RequestRoundTrip(r);
    if |p| < TWO_32 {
      assert p[..|p|] == p;
      FieldsBound(r.args);
    } else if RequestOf(p[..n]).Some? && RequestOf(p[..n]).value.0 == r {
      RequestOfMonotone(p[..n], p);
      assert false;
    }
  }

  /** End to end, response direction. */
  lemma ResponseDelivered(r: Response)
    requires IsInt32(r.exitCode)
    ensures Received(Frame(ResponseBytes(r)), ResponseOf) == Some(r) <==> |ResponseBytes(r)| < TWO_32
  {
    var p := ResponseBytes(r);
    var n := Truncate32(|p|);
    ReadFrameOf(p, []);
    assert Frame(p) + [] == Frame(p);
    ResponseRoundTrip(r);
    if |p| < TWO_32 {
      assert p[..|p|] == p;
    } else if ResponseOf(p[..n]).Some? && ResponseOf(p[..n]).value.0 == r {
      ResponseOfMonotone(p[..n], p);
      assert false;
    }
  }

  lemma {:induction false} FieldsBound(ss: seq<Text>)
    ensures |ss| <= |StringFields(ss)|
    ensures forall s | s in ss :: |s| <= |StringFields(ss)|
  {
    if ss != [] {
      FieldsBound(ss[..|ss| - 1]);
      assert ss == ss[..|ss| - 1] + [ss[|ss| - 1]];
    }
  }

  // ---- The imperative encoders and decoders ------------------------------------------------------

  /** The `std::vector<uint8_t>` the encoders push onto. */
  class ByteVector {
    var bytes: seq<byte>

    constructor ()
      ensures bytes == []
    {
      bytes := [];
    }

    method AppendU32(w: nat)
      requires w < TWO_32
      modifies this
      ensures bytes == old(bytes) + U32Bytes(w)
    {
      bytes := bytes + [w / 0x100_0000 % 256];
      bytes := bytes + [w / 0x1_0000 % 256];
      bytes := bytes + [w / 0x100 % 256];
      bytes := bytes + [w % 256];
      ShiftsAreBigEndian(w);
    }

    method AppendString(s: Text)
      modifies this
      ensures bytes == old(bytes) + StringField(s)
    {
      AppendU32(Truncate32(|s|));
      bytes := bytes + s;
    }
  }

  /** The wrapper's encoder. */
  method SerializeRequest(r: Request) returns (data: seq<byte>)
    ensures data == RequestBytes(r)
  {
    var out := new ByteVector();
    out.AppendString(r.cwd);
    out.AppendU32(Truncate32(|r.args|));
    ghost var head := StringField(r.cwd) + U32Bytes(Truncate32(|r.args|));
    for i := 0 to |r.args|
      invariant out.bytes == head + StringFields(r.args[..i])
    {
      out.AppendString(r.args[i]);
      StringFieldsStep(head, r.args, i);
    }
    assert r.args[..|r.args|] == r.args;
    data := out.bytes;
  }

  lemma StringFieldsStep(head: seq<byte>, ss: seq<Text>, i: nat)
    requires i < |ss|
    ensures head + StringFields(ss[..i]) + StringField(ss[i]) == head + StringFields(ss[..i + 1])
  {
    assert ss[..i + 1][..i] == ss[..i];
    Associate(head, StringFields(ss[..i]), StringField(ss[i]));
  }

  /** The daemon's encoder. */
  method SerializeResponse(r: Response) returns (data: seq<byte>)
    requires IsInt32(r.exitCode)
    ensures data == ResponseBytes(r)
  {
    var out := new ByteVector();
    var word := if r.exitCode < 0 then r.exitCode + TWO_32 else r.exitCode;
    out.AppendU32(word);
    out.AppendString(r.stdout);
    out.AppendString(r.stderr);
    data := out.bytes;
    assert word == WordOfInt(r.exitCode);
  }

  /** The daemon's decoder; None where the original would read past the end of the vector. */
  method DeserializeRequest(data: seq<byte>) returns (r: Option<(Request, nat)>)
    ensures r == RequestOf(data)
  {
    hide StringAt, ReadU32;
    var cwd := StringAt(data, 0);
    if cwd.None? { return None; }
    var offset := cwd.value.1;
    if offset + 4 > |data| { return None; }
    var argc := ReadU32(data, offset);
    offset := offset + 4;
    ghost var first := offset;
    var args: seq<Text> := [];
    for i := 0 to argc
      invariant StringsAt(data, first, i) == Some((args, offset))
    {
      var arg := StringAt(data, offset);
      if arg.None? {
        StringsAtFails(data, first, i + 1, argc);
        return None;
      }
      args := args + [arg.value.0];
      offset := arg.value.1;
    }
    r := Some((Request(cwd.value.0, args), offset));
  }

  lemma {:induction false} StringsAtFails(data: seq<byte>, offset: nat, m: nat, n: nat)
    requires m <= n && StringsAt(data, offset, m).None?
    ensures StringsAt(data, offset, n).None?
    decreases n
  {
    if m < n { StringsAtFails(data, offset, m, n - 1); }
  }

  /** The wrapper's decoder. */
  method DeserializeResponse(data: seq<byte>) returns (r: Option<(Response, nat)>)
    ensures r == ResponseOf(data)
  {
    if |data| < 4 { return None; }
    var exitCode := IntOfWord(ReadU32(data, 0));
    var o := StringAt(data, 4);
    if o.None? { return None; }
    var e := StringAt(data, o.value.1);
    if e.None? { return None; }
    r := Some((Response(exitCode, o.value.0, e.value.0), e.value.1));
  }
}
