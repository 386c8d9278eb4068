/**
 The messages the decoder accepts, written as a grammar: a concatenation of fields, each spelled with any varint
 representations. A packed field may run over its declared end by the tail of its last varint.
 */
module ContainsGrammar {
  import opened Base
  import opened ContainsDecoder

  datatype List<T> = Nil | Cons(head: T, tail: List<T>)

  /** A field by the bytes of its varints. */
  datatype Field =
    | Scalar(tag: Bytes, value: Bytes)
    | Packed(tag: Bytes, size: Bytes, values: List<Bytes>)
    | Block(tag: Bytes, size: Bytes, body: Bytes)

  function Joined(ws: List<Bytes>): Bytes {
    match ws
    case Nil => []
    case Cons(w, rest) => w + Joined(rest)
  }

  function Truths(ws: List<Bytes>): seq<bool> {
    match ws
    case Nil => []
    case Cons(w, rest) => [Value(w) != 0] + Truths(rest)
  }

  /** Varints read while fewer than `n` bytes are used up. */
  predicate Covers(n: int, ws: List<Bytes>) {
    match ws
    case Nil => n <= 0
    case Cons(w, rest) => n > 0 && IsVarint(w) && Covers(n - |w|, rest)
  }

  predicate Varints(ws: List<Bytes>) {
    match ws
    case Nil => true
    case Cons(w, rest) => IsVarint(w) && Varints(rest)
  }

  predicate FieldOk(f: Field) {
    && IsVarint(f.tag)
    && var tag := Value(f.tag);
       match f {
         case Scalar(_, v) => IsVarint(v) && tag % 8 == 0
         case Packed(_, size, ws) => IsVarint(size) && tag == 10 && Covers(Value(size), ws)
         case Block(_, size, body) => IsVarint(size) && tag % 8 == 2 && tag != 10 && Value(size) == |body|
       }
  }

  /** The wire format proper: a packed field's varints fill exactly its declared size. */
  predicate Strict(f: Field) {
    && IsVarint(f.tag)
    && var tag := Value(f.tag);
       match f {
         case Scalar(_, v) => IsVarint(v) && tag % 8 == 0
         case Packed(_, size, ws) => IsVarint(size) && tag == 10 && Varints(ws) && Value(size) == |Joined(ws)|
         case Block(_, size, body) => IsVarint(size) && tag % 8 == 2 && tag != 10 && Value(size) == |body|
       }
  }

  function FieldBytes(f: Field): Bytes {
    match f
    case Scalar(tag, v) => tag + v
    case Packed(tag, size, ws) => tag + size + Joined(ws)
    case Block(tag, size, body) => tag + size + body
  }

  /** What a field says: field 1 answers, the others are unknown and say nothing. */
  function Answers(f: Field): seq<bool> {
    match f
    case Scalar(tag, v) => if Value(tag) / 8 == 1 then [Value(v) != 0] else []
    case Packed(_, _, ws) => Truths(ws)
    case Block(_, _, _) => []
  }

  predicate AllOk(fs: List<Field>) {
    match fs
    case Nil => true
    case Cons(f, rest) => FieldOk(f) && AllOk(rest)
  }

  predicate AllStrict(fs: List<Field>) {
    match fs
    case Nil => true
    case Cons(f, rest) => Strict(f) && AllStrict(rest)
  }

  function Message(fs: List<Field>): Bytes {
    match fs
    case Nil => []
    case Cons(f, rest) => FieldBytes(f) + Message(rest)
  }

  function AllAnswers(fs: List<Field>): seq<bool> {
    match fs
    case Nil => []
    case Cons(f, rest) => Answers(f) + AllAnswers(rest)
  }

  // ---------------------------------------------------------------------------------------
  // Every message of the grammar is decoded to its answers
  // ---------------------------------------------------------------------------------------

  lemma {:induction false} PackedIsRead(left: int, ws: List<Bytes>, rest: Bytes)
    requires Covers(left, ws)
    ensures |Joined(ws)| >= left
    ensures Parse(Joined(ws) + rest, left) == Before(Truths(ws), Parse(rest, 0))
    decreases ws
  {
    hide Parse, Value, IsVarint, VarintLength;
    match ws {
      case Nil =>
        assert [] + rest == rest;
        NoPackedBytesLeft(rest, left);
        BeforeTwice([], [], Parse(rest, 0));
      case Cons(w, more) =>
        PackedIsRead(left - |w|, more, rest);
        assert Joined(ws) + rest == w + (Joined(more) + rest);
        PackedTurn(Joined(ws) + rest, left);
        VarintThenRest(w, Joined(more) + rest);
        VarintNotEmpty(w);
        BeforeTwice([Value(w) != 0], Truths(more), Parse(rest, 0));
    }
  }

  lemma VarintNotEmpty(w: Bytes)
    requires IsVarint(w)
    ensures w != []
  {
  }

  /** A tag, a varint and whatever follows. */
  lemma FieldIsRead(tag: Bytes, v: Bytes, rest: Bytes)
    requires IsVarint(tag) && IsVarint(v) && Value(tag) % 8 in {0, 2}
    ensures Parse(tag + v + rest, 0) == ParseField(Value(tag), Value(v), rest)
  {
    hide Parse, ParseField, Value, IsVarint, VarintLength;
    assert tag + v + rest == tag + (v + rest);
    VarintThenRest(tag, v + rest);
    VarintThenRest(v, rest);
    VarintNotEmpty(tag);
    VarintNotEmpty(v);
    FieldTurn(tag + v + rest);
  }

  lemma FieldThenRest(f: Field, rest: Bytes)
    requires FieldOk(f)
    ensures Parse(FieldBytes(f) + rest, 0) == Before(Answers(f), Parse(rest, 0))
  {
    hide Parse, Value, IsVarint, Covers;
    match f {
      case Scalar(tag, v) =>
        FieldIsRead(tag, v, rest);
      case Packed(tag, size, ws) =>
        assert FieldBytes(f) + rest == tag + size + (Joined(ws) + rest);
        FieldIsRead(tag, size, Joined(ws) + rest);
        PackedIsRead(Value(size), ws, rest);
      case Block(tag, size, body) =>
        assert FieldBytes(f) + rest == tag + size + (body + rest);
        FieldIsRead(tag, size, body + rest);
        assert (body + rest)[|body|..] == rest;
        BeforeTwice([], [], Parse(rest, 0));
    }
  }

  lemma {:induction false} MessageIsDecoded(fs: List<Field>)
    requires AllOk(fs)
    ensures Parse(Message(fs), 0) == Some(AllAnswers(fs))
  {
    match fs {
      case Nil =>
      case Cons(f, rest) =>
        hide Parse, FieldOk;
        MessageIsDecoded(rest);
        FieldThenRest(f, Message(rest));
    }
  }

  // ---------------------------------------------------------------------------------------
  // Nothing else is accepted
  // ---------------------------------------------------------------------------------------

  lemma VarintSplit(b: Bytes)
    requires VarintLength(b) > 0
    ensures var n := VarintLength(b); IsVarint(b[..n]) && b == b[..n] + b[n..]
  {
    VarintLengthMeans(b, VarintLength(b));
  }

  lemma OneMoreVarint(left: int, w: Bytes, more: List<Bytes>, rest: Bytes, answers: seq<bool>)
    requires left > 0 && IsVarint(w) && Covers(left - |w|, more)
    ensures Covers(left, Cons(w, more)) && Joined(Cons(w, more)) + rest == w + (Joined(more) + rest)
    ensures Truths(Cons(w, more)) + answers == [Value(w) != 0] + (Truths(more) + answers)
  {
    hide Value, IsVarint;
  }

  lemma NoVarint(left: int, rest: Bytes, answers: seq<bool>)
    requires left <= 0
    ensures Covers(left, Nil) && Joined(Nil) + rest == rest && Truths(Nil) + answers == answers
  {
    assert [] + rest == rest && [] + answers == answers;
  }

  lemma {:induction false} Explain(b: Bytes, left: int) returns (ws: List<Bytes>, fs: List<Field>)
    requires Parse(b, left).Some?
    ensures Covers(left, ws) && AllOk(fs) && b == Joined(ws) + Message(fs)
    ensures Parse(b, left).value == Truths(ws) + AllAnswers(fs)
    decreases |b|, 1
  {
    hide Parse, ParseField, Value, IsVarint, VarintLength, Covers, Joined, Truths, Message, AllAnswers, AllOk;
    if left > 0 {
      PackedTurn(b, left);
      var n := VarintLength(b);
      VarintSplit(b);
      var more;
      more, fs := Explain(b[n..], left - n);
      ws := Cons(b[..n], more);
      OneMoreVarint(left, b[..n], more, Message(fs), AllAnswers(fs));
    } else {
      NoPackedBytesLeft(b, left);
      ws := Nil;
      fs := ExplainFields(b);
      NoVarint(left, Message(fs), AllAnswers(fs));
    }
  }

  lemma {:induction false} ExplainFields(b: Bytes) returns (fs: List<Field>)
    requires Parse(b, 0).Some?
    ensures AllOk(fs) && b == Message(fs) && Parse(b, 0).value == AllAnswers(fs)
    decreases |b|, 0
  {
    hide Parse, ParseField, Value, IsVarint, VarintLength, Message, AllAnswers, AllOk;
    if b == [] {
      NothingIsDecoded();
      NoFields();
      return Nil;
    }
    FieldTurn(b);
    var n := VarintLength(b);
    VarintSplit(b);
    var rest := b[n..];
    var m := VarintLength(rest);
    VarintSplit(rest);
    fs := ExplainField(b[..n], rest[..m], rest[m..]);
    assert b == b[..n] + rest[..m] + rest[m..];
  }

  lemma NoFields()
    ensures AllOk(Nil) && Message(Nil) == [] && AllAnswers(Nil) == []
  {
  }

  lemma NothingIsDecoded()
    ensures Parse([], 0) == Some([])
  {
  }

  lemma {:induction false} ExplainField(tag: Bytes, v: Bytes, rest: Bytes) returns (fs: List<Field>)
    requires IsVarint(tag) && IsVarint(v) && Value(tag) % 8 in {0, 2}
    requires ParseField(Value(tag), Value(v), rest).Some?
    ensures AllOk(fs) && Message(fs) == tag + v + rest
    ensures AllAnswers(fs) == ParseField(Value(tag), Value(v), rest).value
    decreases |rest|, 2
  {
    hide Parse, Value, IsVarint, VarintLength, Covers, Joined, Truths;
    var more;
    if Value(tag) % 8 == 0 {
      more := ExplainFields(rest);
      fs := Cons(Scalar(tag, v), more);
    } else if Value(tag) / 8 == 1 {
      var ws;
      ws, more := Explain(rest, Value(v));
      fs := Cons(Packed(tag, v, ws), more);
      assert tag + v + Joined(ws) + Message(more) == tag + v + (Joined(ws) + Message(more));
    } else {
      var n := Value(v);
      more := ExplainFields(rest[n..]);
      fs := Cons(Block(tag, v, rest[..n]), more);
      assert tag + v + rest[..n] + rest[n..] == tag + v + rest;
    }
  }

  /** The decoder accepts the messages of the grammar, decodes them to their answers, and accepts nothing else. */
  lemma AcceptsExactlyTheGrammar(b: Bytes, answers: seq<bool>)
    ensures Parse(b, 0) == Some(answers) <==>
            exists fs :: AllOk(fs) && Message(fs) == b && AllAnswers(fs) == answers
  {
    hide Parse;
    forall fs | AllOk(fs) && Message(fs) == b
      ensures Parse(b, 0) == Some(AllAnswers(fs))
    {
      MessageIsDecoded(fs);
    }
    if Parse(b, 0) == Some(answers) {
      var fs := ExplainFields(b);
      assert AllOk(fs);
    }
  }

  // ---------------------------------------------------------------------------------------
  // Well-formed messages, and what else is let through
  // ---------------------------------------------------------------------------------------

  lemma {:induction false} ExactSizeCovers(n: int, ws: List<Bytes>)
    requires Varints(ws)
    ensures n == |Joined(ws)| ==> Covers(n, ws)
    decreases ws
  {
    match ws {
      case Nil =>
      case Cons(w, rest) => ExactSizeCovers(n - |w|, rest);
    }
  }

  lemma {:induction false} StrictIsAccepted(fs: List<Field>)
    requires AllStrict(fs)
    ensures AllOk(fs)
  {
    match fs {
      case Nil =>
      case Cons(f, rest) =>
        StrictIsAccepted(rest);
        if f.Packed? {
          ExactSizeCovers(Value(f.size), f.values);
        }
    }
  }

  /** Packed, unpacked and unknown fields in any order, in any varint spelling, come back as the answers they hold. */
  lemma WireFormatRoundTrip(fs: List<Field>)
    requires AllStrict(fs)
    ensures Parse(Message(fs), 0) == Some(AllAnswers(fs))
  {
    StrictIsAccepted(fs);
    MessageIsDecoded(fs);
  }

  // ---------------------------------------------------------------------------------------
  // A message has one reading
  // ---------------------------------------------------------------------------------------

  lemma OneVarint(v: Bytes, x: Bytes, w: Bytes, y: Bytes)
    requires IsVarint(v) && IsVarint(w) && v + x == w + y
    ensures v == w && x == y
  {
    VarintThenRest(v, x);
    VarintThenRest(w, y);
  }

  lemma {:induction false} OnePackedReading(n: int, vs: List<Bytes>, x: Bytes, ws: List<Bytes>, y: Bytes)
    requires Covers(n, vs) && Covers(n, ws) && Joined(vs) + x == Joined(ws) + y
    ensures vs == ws && x == y
    decreases vs
  {
    hide IsVarint;
    if n <= 0 {
      assert [] + x == x && [] + y == y;
    } else {
      var v, w := vs.head, ws.head;
      assert v + (Joined(vs.tail) + x) == Joined(vs) + x;
      assert w + (Joined(ws.tail) + y) == Joined(ws) + y;
      OneVarint(v, Joined(vs.tail) + x, w, Joined(ws.tail) + y);
      OnePackedReading(n - |v|, vs.tail, x, ws.tail, y);
    }
  }

  /** The second varint of a field and what follows it. */
  function Second(f: Field): Bytes {
    match f
    case Scalar(_, v) => v
    case Packed(_, size, _) => size
    case Block(_, size, _) => size
  }

  function Payload(f: Field): Bytes {
    match f
    case Scalar(_, _) => []
    case Packed(_, _, ws) => Joined(ws)
    case Block(_, _, body) => body
  }

  lemma FieldParts(f: Field, x: Bytes)
    ensures FieldBytes(f) + x == f.tag + (Second(f) + (Payload(f) + x))
  {
  }

  lemma OneFieldReading(f: Field, x: Bytes, g: Field, y: Bytes)
    requires FieldOk(f) && FieldOk(g) && FieldBytes(f) + x == FieldBytes(g) + y
    ensures f == g && x == y
  {
    hide IsVarint, Value, Covers, Joined;
    FieldParts(f, x);
    FieldParts(g, y);
    OneVarint(f.tag, Second(f) + (Payload(f) + x), g.tag, Second(g) + (Payload(g) + y));
    OneVarint(Second(f), Payload(f) + x, Second(g), Payload(g) + y);
    match f {
      case Scalar(_, _) =>
        assert [] + x == x && [] + y == y;
      case Packed(_, size, ws) =>
        OnePackedReading(Value(size), ws, x, g.values, y);
      case Block(_, _, body) =>
        assert (body + x)[..|body|] == body && (g.body + y)[..|g.body|] == g.body;
        assert (body + x)[|body|..] == x && (g.body + y)[|body|..] == y;
    }
  }

  lemma FieldNotEmpty(f: Field)
    requires FieldOk(f)
    ensures FieldBytes(f) != []
  {
  }

  /** No message can be read as two different lists of fields. */
  lemma {:induction false} OneReading(fs: List<Field>, gs: List<Field>)
    requires AllOk(fs) && AllOk(gs) && Message(fs) == Message(gs)
    ensures fs == gs
  {
    hide FieldOk, FieldBytes;
    if fs.Cons? {
      FieldNotEmpty(fs.head);
    }
    if gs.Cons? {
      FieldNotEmpty(gs.head);
    }
    if fs.Cons? && gs.Cons? {
      OneFieldReading(fs.head, Message(fs.tail), gs.head, Message(gs.tail));
      OneReading(fs.tail, gs.tail);
    }
  }

  /** The shortest spelling of a number. */
  function Spell(n: nat): (w: Bytes)
    ensures w != []
  {
    if n < 128 then [n] else [128 + n % 128] + Spell(n / 128)
  }

  lemma {:induction false} SumCons(x: Byte, w: Bytes)
    ensures Sum([x] + w) == x % 128 + 128 * Sum(w)
  {
    var all := [x] + w;
    if w == [] {
      assert Front(all) == [];
      assert Sum([]) == 0;
    } else {
      var last: int := Last(w) % 128;
      assert Front(all) == [x] + Front(w);
      SumCons(x, Front(w));
      assert Last(all) == Last(w);
      assert last * (128 * Weight(|w| - 1)) == 128 * (last * Weight(|w| - 1));
    }
  }

  lemma {:induction false} SpellMeans(n: nat, size: nat)
    requires 0 < size <= 10 && n < Weight(size)
    ensures |Spell(n)| <= size && IsVarint(Spell(n)) && Sum(Spell(n)) == n
  {
    hide Sum, Value;
    if n < 128 {
      SpellShort(n);
    } else {
      SpellMeans(n / 128, size - 1);
      SumCons(128 + n % 128, Spell(n / 128));
      SpellLonger(128 + n % 128, Spell(n / 128));
    }
  }

  lemma SpellShort(n: nat)
    requires n < 128
    ensures IsVarint([n]) && Sum([n]) == n
  {
    assert Front([n]) == [] && Sum([]) == 0;
  }

  lemma SpellLonger(x: Byte, w: Bytes)
    requires x >= 128 && IsVarint(w) && |w| < 10
    ensures IsVarint([x] + w)
  {
    assert Last([x] + w) == Last(w);
  }

  /** Every 64-bit number has a spelling the decoder reads back. */
  lemma SpellIsRead(n: nat, rest: Bytes)
    requires n < U64_LIMIT
    ensures IsVarint(Spell(n)) && Value(Spell(n)) == n
    ensures VarintLength(Spell(n) + rest) == |Spell(n)|
  {
    TopWeight();
    SpellMeans(n, 10);
    VarintThenRest(Spell(n), rest);
  }

  function Unpacked(bs: seq<bool>): List<Field> {
    if bs == [] then Nil else Cons(Scalar([8], [if bs[0] then 1 else 0]), Unpacked(bs[1..]))
  }

  /** Every list of answers can be sent. */
  lemma {:induction false} EveryListHasAMessage(bs: seq<bool>)
    ensures AllStrict(Unpacked(bs)) && AllAnswers(Unpacked(bs)) == bs
    ensures Parse(Message(Unpacked(bs)), 0) == Some(bs)
  {
    if bs != [] {
      EveryListHasAMessage(bs[1..]);
      OneByte(8);
      OneByte(if bs[0] then 1 else 0);
      hide Value, IsVarint;
    }
    WireFormatRoundTrip(Unpacked(bs));
  }

  lemma OneByte(x: Byte)
    requires x < 128
    ensures IsVarint([x]) && Value([x]) == x
  {
    assert Front([x]) == [] && Sum([]) == 0;
  }

  /** Every packed field ends where its size says. */
  predicate Exact(fs: List<Field>) {
    match fs
    case Nil => true
    case Cons(f, rest) => (f.Packed? ==> Value(f.size) == |Joined(f.values)|) && Exact(rest)
  }

  lemma {:induction false} CoveredAreVarints(n: int, ws: List<Bytes>)
    requires Covers(n, ws)
    ensures Varints(ws)
    decreases ws
  {
    match ws {
      case Nil =>
      case Cons(w, rest) => CoveredAreVarints(n - |w|, rest);
    }
  }

  lemma {:induction false} StrictMeansExact(fs: List<Field>)
    requires AllOk(fs)
    ensures AllStrict(fs) <==> Exact(fs)
  {
    match fs {
      case Nil =>
      case Cons(f, rest) =>
        hide Value, IsVarint, Joined;
        StrictMeansExact(rest);
        if f.Packed? {
          CoveredAreVarints(Value(f.size), f.values);
        }
    }
  }

  /** Which accepted messages are well formed: those whose packed fields all end where their sizes say. */
  lemma WellFormedExactlyWithoutOverrun(fs: List<Field>)
    requires AllOk(fs)
    ensures (exists gs :: AllStrict(gs) && Message(gs) == Message(fs)) <==> Exact(fs)
  {
    hide AllOk, AllStrict, Exact, Message;
    StrictMeansExact(fs);
    forall gs | AllStrict(gs) && Message(gs) == Message(fs)
      ensures gs == fs
    {
      StrictIsAccepted(gs);
      OneReading(gs, fs);
    }
  }

  lemma TwoByteVarint()
    ensures IsVarint([128, 1]) && Value([128, 1]) == 128
  {
    var w: Bytes := [128, 1];
    assert Front(w) == [128] && Front([128]) == [] && Sum([]) == 0;
  }

  /** A packed field of size 1 whose only varint is two bytes long: the decoder reads past the declared end. */
  lemma OverrunIsAccepted()
    ensures Parse([10, 1, 128, 1], 0) == Some([true])
    ensures forall fs :: AllStrict(fs) ==> Message(fs) != [10, 1, 128, 1]
  {
    var b: Bytes := [10, 1, 128, 1];
    var w: Bytes := [128, 1];
    OneByte(10);
    OneByte(1);
    TwoByteVarint();
    hide Value, IsVarint, Parse;
    var f := Packed([10], [1], Cons(w, Nil));
    assert FieldOk(f);
    assert FieldBytes(f) == b;
    assert AllAnswers(Cons(f, Nil)) == [true] && Message(Cons(f, Nil)) == b;
    MessageIsDecoded(Cons(f, Nil));
    assert |Joined(f.values)| == 2;
    forall fs | AllStrict(fs) && Message(fs) == b
      ensures false
    {
      StrictIsAccepted(fs);
      OneReading(fs, Cons(f, Nil));
    }
  }
}
