/** Where each field of a request and of a response stands in the encoded bytes. */
module IpcLayout {
  import opened Bytes
  import opened Framing
  import opened Ipc

  /** At `offset` there is a 32-bit length and then the text itself. */
  ghost predicate TextAt(data: seq<byte>, offset: nat, s: Text)
  {
    && offset + 4 + |s| <= |data| && FromBigEndian(data[offset..offset + 4]) == |s|
    && data[offset + 4..offset + 4 + |s|] == s
  }

  lemma WordValue(data: seq<byte>, offset: nat, w: nat)
    requires w < TWO_32 && At(data, offset, U32Bytes(w))
    ensures FromBigEndian(data[offset..offset + 4]) == w
  {
    BigEndianInverse(w, 4);
    Power256Of4();
  }

  lemma WordRead(data: seq<byte>, offset: nat, w: nat)
    requires WordAt(data, offset) == Some((w, offset + 4))
    ensures offset + 4 <= |data| && FromBigEndian(data[offset..offset + 4]) == w
  {
  }

  lemma FieldIsText(data: seq<byte>, offset: nat, s: Text)
    requires Fits(s) && At(data, offset, StringField(s))
    ensures TextAt(data, offset, s)
  {
    AtSplit(data, offset, U32Bytes(|s|), s);
    WordValue(data, offset, |s|);
  }

  lemma FieldLength(s: Text)
    ensures |StringField(s)| == 4 + |s|
  {
  }

  lemma FitsAt(ss: seq<Text>, k: nat)
    requires AllFit(ss) && k < |ss|
    ensures Fits(ss[k])
  {
  }

  /** The octets that the strings take up with their lengths. */
  function Span(ss: seq<Text>): nat
  {
    if ss == [] then 0 else Span(ss[..|ss| - 1]) + 4 + |ss[|ss| - 1]|
  }

  lemma {:induction false} FieldsSpan(ss: seq<Text>)
    ensures |StringFields(ss)| == Span(ss)
  {
    if ss != [] { FieldsSpan(ss[..|ss| - 1]); }
  }

  lemma {:induction false} FieldOfMany(data: seq<byte>, offset: nat, ss: seq<Text>, k: nat)
    requires At(data, offset, StringFields(ss)) && k < |ss|
    ensures At(data, offset + Span(ss[..k]), StringField(ss[k]))
    decreases |ss|
  {
    var front := ss[..|ss| - 1];
    hide At, StringField;
    AtSplit(data, offset, StringFields(front), StringField(ss[|ss| - 1]));
    FieldsSpan(front);
    if k < |front| {
      FieldOfMany(data, offset, front, k);
      assert front[..k] == ss[..k];
    }
  }

  /** The working directory comes first, then the number of arguments, then each argument behind the ones before it. */
  lemma RequestLayout(r: Request)
    requires RequestFits(r)
    ensures var data, c := RequestBytes(r), |r.cwd|;
      && |data| == 8 + c + Span(r.args) && TextAt(data, 0, r.cwd) && FromBigEndian(data[4 + c..8 + c]) == |r.args|
      && forall k | 0 <= k < |r.args| :: TextAt(data, 8 + c + Span(r.args[..k]), r.args[k])
  {
    hide At, TextAt, StringField, StringFields, RequestBytes, Span, WordAt, FromBigEndian, Truncate32, AllFit;
    var data, c := RequestBytes(r), |r.cwd|;
    RequestParts(r);
    FieldsSpan(r.args);
    FieldLength(r.cwd);
    WordRead(data, 4 + c, |r.args|);
    FieldIsText(data, 0, r.cwd);
    forall k | 0 <= k < |r.args| ensures TextAt(data, 8 + c + Span(r.args[..k]), r.args[k]) {
      FieldOfMany(data, 8 + c, r.args, k);
      FitsAt(r.args, k);
      FieldIsText(data, 8 + c + Span(r.args[..k]), r.args[k]);
    }
  }

  /** The exit code comes first, modulo 2^32, then standard output, then standard error. */
  lemma ResponseLayout(r: Response)
    requires IsInt32(r.exitCode) && ResponseFits(r)
    ensures var data, o := ResponseBytes(r), |r.stdout|;
      && |data| == 12 + o + |r.stderr|
      && (FromBigEndian(data[0..4]) == r.exitCode || FromBigEndian(data[0..4]) == r.exitCode + TWO_32)
      && TextAt(data, 4, r.stdout) && TextAt(data, 8 + o, r.stderr)
  {
    var data, w, o := ResponseBytes(r), WordOfInt(r.exitCode), |r.stdout|;
    assert data[0..|data|] == data;
    assert |StringField(r.stdout)| == 4 + o && |StringField(r.stderr)| == 4 + |r.stderr|;
    AtSplit(data, 0, U32Bytes(w) + StringField(r.stdout), StringField(r.stderr));
    AtSplit(data, 0, U32Bytes(w), StringField(r.stdout));
    WordValue(data, 0, w);
    hide At, TextAt, StringField, ResponseBytes;
    FieldIsText(data, 4, r.stdout);
    FieldIsText(data, 8 + o, r.stderr);
  }
}
