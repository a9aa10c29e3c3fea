/**
 Requests as any client may write them: with the fields of their arguments in any order, repeated, or
 joined by fields this side does not know, under either form of header.
 */
module Messages {
  import opened Bytes
  import opened Protocol
  import opened Schema
  import opened SchemaProofs
  import opened FieldProofs
  import opened Wire
  import opened WireProofs
  import opened Processor

  /** The whole text reads as this request: its method, its sequence number and its arguments. */
  ghost predicate ReadsAs(text: Text, q: Request) {
    var m := ReadMessageBegin(text, 0);
    && m.Ok? && m.value.name == q.Name() && m.value.sequence == q.sequence
    && Dec(ArgsTy(q.Name()), text, m.pos) == Ok(Filled(ArgsTy(q.Name()), q.ArgsValue()), |text|)
  }

  /** A request on the wire, in some text that reads as it. */
  datatype Sent = Sent(text: Text, request: Request) {
    ghost predicate Fits() {
      ReadsAs(text, request)
    }
  }

  /** The request as this crate's own client writes it. */
  ghost function Written(q: Request): Sent {
    Sent(q.Encode(), q)
  }

  lemma WrittenFits(q: Request)
    requires q.Fits()
    ensures Written(q).Fits()
  {
    hide Request.Encode, Request.Fits, Request.Name, Request.ArgsValue, Dec;
    hide ReadMessageBegin, EncMessageBegin, Filled, ArgsTy, At;
    assert q.Encode() + [] == q.Encode();
    HeaderRead(q, []);
    ArgsRead(q, []);
  }

  /**
   * One attempt on a whole request, however it is written and whatever follows it, answers it and consumes
   * exactly it.
   */
  lemma SentProcessed<S>(hd: Handler<S>, h: S, q: Sent, rest: Text)
    requires q.Fits()
    ensures var (h', reply) := Answer(hd, h, q.request);
            Process(hd, h, q.text + rest) == Done(h', reply, |q.text|)
  {
    assert KnownMethod(q.request.Name());
    hide Request.Name, Request.ArgsValue, Dec, ReadMessageBegin, ReplyText, ExceptionText;
    hide Answer, Dispatch, KnownMethod, Filled, ArgsTy;
    DispatchAnswer(hd, h, q.request);
    ProcessStable(hd, h, q.text, rest);
  }

  /** A proper prefix of it is incomplete: no handler runs on it. */
  lemma SentPrefixIncomplete<S>(hd: Handler<S>, h: S, q: Sent, n: nat)
    requires q.Fits() && n < |q.text|
    ensures Process(hd, h, q.text[..n]).Incomplete?
  {
    hide Process, Answer, Sent.Fits;
    SentProcessed(hd, h, q, []);
    assert q.text[..n] + q.text[n..] == q.text + [];
    CutShort(hd, h, q.text[..n], q.text[n..]);
  }

  // ----- what a conforming client may write

  function FieldsOf(name: Text): seq<Field> {
    ArgsTy(name).fields
  }

  /** For each field the last one sent carries the value in its slot. */
  ghost predicate CarriesAll(fs: seq<Field>, rs: seq<RawField>, slots: map<int, Value>)
    requires AllReadable(fs, rs)
  {
    forall k | 0 <= k < |fs| ::
      && fs[k].id in slots && Last(rs, fs[k].id).Some?
      && ValueOf(fs, Last(rs, fs[k].id).value) == Filled(fs[k].ty, slots[fs[k].id])
  }

  ghost predicate Carries(q: Request, rs: seq<RawField>) {
    AllReadable(FieldsOf(q.Name()), rs) && CarriesAll(FieldsOf(q.Name()), rs, q.ArgsValue().slots)
  }

  lemma NothingInitial(name: Text)
    ensures Initial(FieldsOf(name)) == map[]
    ensures StructOf(FieldsOf(name)) == ArgsTy(name)
  {
  }

  /** The field loop then ends with exactly the arguments of the request. */
  lemma CarriedIsRead(q: Request, rs: seq<RawField>)
    requires Carries(q, rs)
    ensures var fs := FieldsOf(q.Name());
            && Filled(ArgsTy(q.Name()), q.ArgsValue()) == Record(Assign(fs, rs, Initial(fs)))
            && HasRequired(fs, Assign(fs, rs, Initial(fs)))
  {
    var fs, slots := FieldsOf(q.Name()), q.ArgsValue().slots;
    ArgsSchema(q.Name());
    NothingInitial(q.Name());
    hide FieldsOf, ArgsTy, Request.Name, Request.ArgsValue, WellFormed, Readable;
    hide Last, Initial, Dec, Assign, FilledFields;
    CarriedFields(fs, rs, slots);
  }

  lemma CarriedFields(fs: seq<Field>, rs: seq<RawField>, slots: map<int, Value>)
    requires WellFormed(StructOf(fs)) && Initial(fs) == map[] && AllReadable(fs, rs) && CarriesAll(fs, rs, slots)
    ensures var read := Assign(fs, rs, Initial(fs));
        read == FilledFields(fs, slots, Initial(fs)) && HasRequired(fs, read)
  {
    hide WellFormed, Last, Initial, Dec, Assign, FilledFields, ValueOf, Readable;
    var read, filled := Assign(fs, rs, Initial(fs)), FilledFields(fs, slots, Initial(fs));
    forall id ensures (id in read <==> id in filled) && (id in read ==> read[id] == filled[id]) {
      AssignLast(fs, rs, Initial(fs), id);
      CarriedAt(fs, rs, slots, id);
      if id in filled { FilledOnlyKnown(fs, slots, id); }
    }
    assert read == filled;
    forall k | 0 <= k < |fs| ensures fs[k].id in read {
      AssignLast(fs, rs, Initial(fs), fs[k].id);
      KnownAt(fs, k);
    }
  }

  lemma KnownAt(fs: seq<Field>, k: nat)
    requires k < |fs|
    ensures Known(fs, fs[k].id)
  {
  }

  lemma CarriedAt(fs: seq<Field>, rs: seq<RawField>, slots: map<int, Value>, id: int)
    requires WellFormed(StructOf(fs)) && AllReadable(fs, rs) && CarriesAll(fs, rs, slots)
    ensures Known(fs, id) ==>
              && Last(rs, id).Some?
              && id in FilledFields(fs, slots, Initial(fs))
              && FilledFields(fs, slots, Initial(fs))[id] == ValueOf(fs, Last(rs, id).value)
  {
    var k := Find(fs, id);
    hide Dec, Last;
    if k < |fs| {
      FilledStruct(fs, slots, k);
    }
  }

  /**
   A request reads the same under either form of header, with its arguments' fields in any order, the
   last of a repeated one counting and unknown ones ignored.
   */
  lemma AnyFieldsRead(q: Request, head: Text, kind: byte, rs: seq<RawField>)
    requires ReadMessageBegin(head, 0) == Ok(Message(q.Name(), kind, q.sequence), |head|)
    requires Carries(q, rs)
    ensures Sent(head + StructText(rs), q).Fits()
  {
    var fs := FieldsOf(q.Name());
    hide Dec, ReadMessageBegin, StructText, Assign, Filled, FieldsOf;
    hide ArgsTy, Carries, Request.Name, Request.ArgsValue, Initial, HasRequired;
    assert AllReadable(fs, rs) by { CarriesReadable(q, rs); }
    hide AllReadable;
    CarriedIsRead(q, rs);
    NothingInitial(q.Name());
    StructRead(fs, rs);
    JoinRead(head, StructText(rs), StructOf(fs));
  }

  lemma CarriesReadable(q: Request, rs: seq<RawField>)
    requires Carries(q, rs)
    ensures AllReadable(FieldsOf(q.Name()), rs)
  {
  }

  /** A header and a value, each readable in full, are read one after the other. */
  lemma JoinRead(head: Text, tail: Text, ty: Ty)
    requires ReadMessageBegin(head, 0).Ok? && ReadMessageBegin(head, 0).pos == |head|
    requires Dec(ty, tail, 0).Ok? && Dec(ty, tail, 0).pos == |tail|
    ensures ReadMessageBegin(head + tail, 0) == ReadMessageBegin(head, 0)
    ensures Dec(ty, head + tail, |head|) == Ok(Dec(ty, tail, 0).value, |head + tail|)
  {
    AtStart(head, tail);
    AtEnd(head, tail);
    hide At, Dec, ReadMessageBegin;
    MessageBeginLocal(head, head + tail, 0, 0);
    DecLocal(ty, tail, head + tail, |head|, 0);
  }

  lemma AtEnd(part: Text, more: Text)
    ensures At(part + more, |part|, more)
  {
  }

  /** The header without a version word: the name, the message type, the sequence number. */
  function OldMessageBegin(m: Message): Text {
    EncInt(|m.name|, 4) + (m.name + ([m.kind] + EncInt(m.sequence, 4)))
  }

  /** The header with a version word, whose third byte says nothing. */
  function NewMessageBegin(m: Message, third: byte): Text {
    [0x80, 1, third, m.kind] + (EncString(m.name) + EncInt(m.sequence, 4))
  }

  /** Either form of header is read to its end as the message it begins. */
  lemma HeadersRead(m: Message, third: byte)
    requires CALL <= m.kind <= ONEWAY && |m.name| < MAX_SIZE && InRange(m.sequence, 4)
    ensures EncMessageBegin(m) == NewMessageBegin(m, 0)
    ensures ReadMessageBegin(NewMessageBegin(m, third), 0) == Ok(m, |NewMessageBegin(m, third)|)
    ensures ReadMessageBegin(OldMessageBegin(m), 0) == Ok(m, |OldMessageBegin(m)|)
  {
    hide OldMessageBegin, ReadMessageBegin;
    NewHeaderRead(m, third);
    OldHeaderRead(m);
  }

  lemma NewHeaderRead(m: Message, third: byte)
    requires CALL <= m.kind <= ONEWAY && |m.name| < MAX_SIZE && InRange(m.sequence, 4)
    ensures ReadMessageBegin(NewMessageBegin(m, third), 0) == Ok(m, |NewMessageBegin(m, third)|)
  {
    var version: Text := [0x80, 1, third, m.kind];
    var rest, s := EncString(m.name) + EncInt(m.sequence, 4), NewMessageBegin(m, third);
    assert s[0..4] == version;
    AtEnd(version, rest);
    hide ReadStrictRest, ReadOldRest, EncString, At, InRange;
    StrictRestAt(m, s, 4);
  }

  /** The length of a name under 2^31 bytes starts with a byte under 0x80. */
  lemma LengthPrefix(n: nat)
    requires n < MAX_SIZE
    ensures EncInt(n, 4)[0] < 0x80 && FromBigEndian(EncInt(n, 4)) == n
  {
    assert FromBigEndian(EncInt(n, 4)) == n by {
      Widths();
      hide FromBigEndian, BigEndian, Width;
      BigEndianRoundTrip(n, 4);
    }
    hide FromBigEndian, EncInt;
    TopByte(EncInt(n, 4));
  }

  lemma TopByte(s: Text)
    requires |s| == 4
    ensures FromBigEndian(s) == (((s[0] as int) * 256 + s[1]) * 256 + s[2]) * 256 + s[3]
  {
    var three, two, one := s[..3], s[..2], s[..1];
    assert three[..2] == two && two[..1] == one && one[..0] == [];
    assert FromBigEndian(one) == s[0];
    assert FromBigEndian(two) == FromBigEndian(one) * 256 + s[1];
    assert FromBigEndian(three) == FromBigEndian(two) * 256 + s[2];
  }

  lemma OldHeaderRead(m: Message)
    requires CALL <= m.kind <= ONEWAY && |m.name| < MAX_SIZE && InRange(m.sequence, 4)
    ensures ReadMessageBegin(OldMessageBegin(m), 0) == Ok(m, |OldMessageBegin(m)|)
  {
    var size, tail := EncInt(|m.name|, 4), EncInt(m.sequence, 4);
    var s := OldMessageBegin(m);
    var n := |m.name|;
    LengthPrefix(n);
    IntRoundTrip(m.sequence, 4);
    assert s[0..4] == size;
    assert s[4..4 + n] == m.name;
    assert s[4 + n..5 + n] == [m.kind];
    assert s[5 + n..9 + n] == tail;
    hide EncInt, FromBigEndian, DecInt, InRange;
    OldRestRead(m, s, tail);
  }

  lemma OldRestRead(m: Message, s: Text, tail: Text)
    requires CALL <= m.kind <= ONEWAY && |tail| == 4 && DecInt(tail) == m.sequence && |s| == 9 + |m.name|
    requires s[4..4 + |m.name|] == m.name && s[4 + |m.name|..5 + |m.name|] == [m.kind]
        && s[5 + |m.name|..9 + |m.name|] == tail
    ensures ReadOldRest(|m.name|, s, 4) == Ok(m, |s|)
  {
    hide DecInt;
  }
}
