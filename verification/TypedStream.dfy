/** Writing a list of typed values into a buffer and reading it back with the same schema. */
module TypedStream {
  import opened Wrappers
  import opened Endian
  import opened Buffers

  datatype Item =
    | ByteItem(b: bv8)
    | ShortItem(s: bv16)
    | IntItem(i: bv32)
    | LongItem(l: bv64)
    | RawItem(raw: seq<bv8>)
    | TextItem(text: string)

  datatype Kind = ByteKind | ShortKind | IntKind | LongKind | RawKind(length: nat) | TextKind

  function KindOf(item: Item): Kind {
    match item
    case ByteItem(_) => ByteKind
    case ShortItem(_) => ShortKind
    case IntItem(_) => IntKind
    case LongItem(_) => LongKind
    case RawItem(raw) => RawKind(|raw|)
    case TextItem(_) => TextKind
  }

  /** What a list is written and read in: the order of bytes, and the characters of texts. */
  datatype Format = Format(endianness: Endianness, charset: Charset)

  /** `String.getBytes`. */
  function Codes(charset: Charset, text: string): (bytes: seq<bv8>)
    ensures |bytes| == |text| && forall i :: 0 <= i < |text| ==> bytes[i] == charset.codeOf(text[i])
  {
    seq(|text|, i requires 0 <= i < |text| => charset.codeOf(text[i]))
  }

  /** A text is written with its NUL terminator after it. */
  function Encode(f: Format, item: Item): seq<bv8> {
    match item
    case ByteItem(b) => [b]
    case ShortItem(s) => Ordered(f.endianness, Bytes2(s))
    case IntItem(i) => Ordered(f.endianness, Bytes4(i))
    case LongItem(l) => Ordered(f.endianness, Bytes8(l))
    case RawItem(raw) => raw
    case TextItem(text) => Codes(f.charset, text) + [0]
  }

  function EncodeAll(f: Format, items: seq<Item>): seq<bv8> {
    if items == [] then [] else Encode(f, items[0]) + EncodeAll(f, items[1..])
  }

  function UpToNul(bytes: seq<bv8>): (t: seq<bv8>)
    ensures |t| <= |bytes| && t == bytes[..|t|] && 0 !in t && (|t| < |bytes| ==> bytes[|t|] == 0)
  {
    if bytes == [] || bytes[0] == 0 then [] else [bytes[0]] + UpToNul(bytes[1..])
  }

  /** The item of a kind that starts at `position`, and the cursor after it. */
  function Decode(f: Format, kind: Kind, bytes: seq<bv8>, position: nat): Option<(Item, nat)> {
    if kind == TextKind then
      if position > |bytes| then None
      else var t := UpToNul(bytes[position..]); Some((TextItem(Decoded(f.charset, t)), position + |t| + 1))
    else
      var length := Width(kind);
      match Slice(bytes, position, length)
      case None => None
      case Some(s) => Some((FromBytes(f, kind, s), position + length))
  }

  function Width(kind: Kind): nat
    requires kind != TextKind
  {
    match kind
    case ByteKind => 1
    case ShortKind => 2
    case IntKind => 4
    case LongKind => 8
    case RawKind(n) => n
  }

  function FromBytes(f: Format, kind: Kind, s: seq<bv8>): Item
    requires kind != TextKind && |s| == Width(kind)
  {
    match kind
    case ByteKind => ByteItem(s[0])
    case ShortKind => ShortItem(Low16(Accumulated(Ordered(f.endianness, s))))
    case IntKind => IntItem(Accumulated(Ordered(f.endianness, s)))
    case LongKind => LongItem(Joined8(Ordered(f.endianness, s)))
    case RawKind(_) => RawItem(s)
  }

  function DecodeAll(f: Format, kinds: seq<Kind>, bytes: seq<bv8>, position: nat): Option<(seq<Item>, nat)> {
    if kinds == [] then Some(([], position))
    else match Decode(f, kinds[0], bytes, position)
      case None => None
      case Some((item, next)) =>
        match DecodeAll(f, kinds[1..], bytes, next)
        case None => None
        case Some((items, end)) => Some(([item] + items, end))
  }

  function KindsOf(items: seq<Item>): (kinds: seq<Kind>)
    ensures |kinds| == |items|
  {
    if items == [] then [] else [KindOf(items[0])] + KindsOf(items[1..])
  }

  /** The character comes back from its code, which is not that of the terminator. */
  predicate IsPlain(charset: Charset, c: char) { charset.codeOf(c) != 0 && charset.charOf(charset.codeOf(c)) == c }

  /** A text can be told from its terminator, and has no character the character set does not have. */
  predicate IsClean(f: Format, item: Item) {
    item.TextItem? ==> forall i :: 0 <= i < |item.text| ==> IsPlain(f.charset, item.text[i])
  }

  // ---------------------------------------------------------------- the buffer's methods

  predicate AtEnd(position: int, size: nat) { Cursor(position) == size }

  method WriteItem(buffer: BBuffer, charset: Charset, item: Item)
    requires AtEnd(buffer.position, buffer.bytes.Length)
    modifies buffer, buffer.bytes
    ensures buffer.bytes == old(buffer.bytes) || fresh(buffer.bytes)
    ensures buffer.bytes[..] == old(buffer.bytes[..]) + Encode(Format(buffer.endianness, charset), item)
    ensures AtEnd(buffer.position, buffer.bytes.Length)
  {
    ghost var before := buffer.bytes[..];
    var ok: bool;
    match item
    case ByteItem(b) =>
      AppendIsPlain(before, [b]);
      ok := buffer.WriteByte(b);
    case ShortItem(s) =>
      AppendIsPlain(before, Ordered(buffer.endianness, Bytes2(s)));
      ok := buffer.WriteShort(s);
    case IntItem(i) =>
      AppendIsPlain(before, Ordered(buffer.endianness, Bytes4(i)));
      ok := buffer.WriteInt(i);
    case LongItem(l) =>
      AppendIsPlain(before, Ordered(buffer.endianness, Bytes8(l)));
      ok := buffer.WriteLong(l);
    case RawItem(raw) =>
      AppendIsPlain(before, raw);
      ok := buffer.Write(raw);
    case TextItem(text) => WriteText(buffer, charset, text);
  }

  /** A text is terminated by a NUL. */
  method WriteText(buffer: BBuffer, charset: Charset, text: string)
    requires AtEnd(buffer.position, buffer.bytes.Length)
    modifies buffer, buffer.bytes
    ensures buffer.bytes == old(buffer.bytes) || fresh(buffer.bytes)
    ensures buffer.bytes[..] == old(buffer.bytes[..]) + Encode(Format(buffer.endianness, charset), TextItem(text))
    ensures AtEnd(buffer.position, buffer.bytes.Length)
  {
    ghost var before := buffer.bytes[..];
    AppendIsPlain(before, Codes(charset, text));
    var ok := buffer.Write(Codes(charset, text));
    AppendIsPlain(before + Codes(charset, text), [0]);
    ok := buffer.WriteByte(0);
    SeqAssoc(before, Codes(charset, text), [0]);
  }

  method ReadItem(buffer: BBuffer, charset: Charset, kind: Kind) returns (r: Option<Item>)
    requires buffer.position >= 0
    modifies buffer`position
    ensures match Decode(Format(buffer.endianness, charset), kind, buffer.bytes[..], old(buffer.position)) {
              case None => r == None
              case Some((item, next)) => r == Some(item) && buffer.position == next
            }
  {
    match kind
    case ByteKind =>
      var v := buffer.Get();
      r := if v.None? then None else Some(ByteItem(v.value));
    case ShortKind =>
      var v := buffer.GetShort();
      r := if v.None? then None else Some(ShortItem(v.value));
    case IntKind =>
      var v := buffer.GetInt();
      r := if v.None? then None else Some(IntItem(v.value));
    case LongKind =>
      var v := buffer.GetLong();
      r := if v.None? then None else Some(LongItem(v.value));
    case RawKind(n) =>
      var v := buffer.GetBytes(n);
      r := if v.None? then None else Some(RawItem(v.value));
    case TextKind =>
      ghost var from := buffer.position;
      var v := buffer.GetString(charset);
      r := if v.None? then None else Some(TextItem(v.value));
      if v.Some? {
        NulIsFirst(buffer.bytes[from..], buffer.bytes[from..from + |v.value|]);
      }
  }

  lemma {:induction false} NulIsFirst(bytes: seq<bv8>, t: seq<bv8>)
    requires |t| <= |bytes| && t == bytes[..|t|] && 0 !in t && (|t| < |bytes| ==> bytes[|t|] == 0)
    ensures t == UpToNul(bytes)
    decreases |t|
  {
    if t != [] {
      assert bytes[0] == t[0] && t == [t[0]] + t[1..];
      NulIsFirst(bytes[1..], t[1..]);
    }
  }

  // ---------------------------------------------------------------- the round trip

  lemma {:induction false} JoinShort(f: Format, s: bv16)
    ensures FromBytes(f, ShortKind, Ordered(f.endianness, Bytes2(s))) == ShortItem(s)
  {
    OrderedTwice(f.endianness, Bytes2(s));
    JoinBytes2(s);
  }

  lemma {:induction false} JoinInt(f: Format, i: bv32)
    ensures FromBytes(f, IntKind, Ordered(f.endianness, Bytes4(i))) == IntItem(i)
  {
    OrderedTwice(f.endianness, Bytes4(i));
    JoinBytes4(i);
  }

  lemma {:induction false} JoinLong(f: Format, l: bv64)
    ensures FromBytes(f, LongKind, Ordered(f.endianness, Bytes8(l))) == LongItem(l)
  {
    OrderedTwice(f.endianness, Bytes8(l));
    JoinBytes8(l);
  }

  lemma {:induction false} JoinItem(f: Format, item: Item)
    requires !item.TextItem?
    ensures |Encode(f, item)| == Width(KindOf(item)) && FromBytes(f, KindOf(item), Encode(f, item)) == item
  {
    match item
    case ByteItem(_) =>
    case ShortItem(s) => JoinShort(f, s);
    case IntItem(i) => JoinInt(f, i);
    case LongItem(l) => JoinLong(f, l);
    case RawItem(_) =>
  }

  /** A clean item is read back, from `position` to `next`; one that is not comes back as another item. */
  ghost predicate HeadDecodes(f: Format, item: Item, bytes: seq<bv8>, position: nat, next: nat) {
    var r := Decode(f, KindOf(item), bytes, position);
    if IsClean(f, item) then r == Some((item, next)) else r.Some? && r.value.0 != item
  }

  lemma {:induction false} DecodeText(f: Format, text: string, bytes: seq<bv8>, position: nat, after: seq<bv8>)
    requires position <= |bytes| && bytes[position..] == Codes(f.charset, text) + [0] + after
    ensures HeadDecodes(f, TextItem(text), bytes, position, position + |text| + 1)
  {
    if IsClean(f, TextItem(text)) {
      NulIsFirst(bytes[position..], Codes(f.charset, text));
      assert Decoded(f.charset, Codes(f.charset, text)) == text;
    } else {
      NotDecoded(f.charset, text, bytes[position..], after);
    }
  }

  lemma {:induction false} NotDecoded(charset: Charset, text: string, rest: seq<bv8>, after: seq<bv8>)
    requires rest == Codes(charset, text) + [0] + after && exists i :: 0 <= i < |text| && !IsPlain(charset, text[i])
    ensures Decoded(charset, UpToNul(rest)) != text
  {
    var t := UpToNul(rest);
    if |t| == |text| {
      assert t == Codes(charset, text);
      var i :| 0 <= i < |text| && !IsPlain(charset, text[i]);
      assert t[i] in t;
      assert Decoded(charset, t)[i] == charset.charOf(charset.codeOf(text[i]));
    }
  }

  lemma {:induction false} DecodeFixed(f: Format, kind: Kind, s: seq<bv8>, bytes: seq<bv8>, position: nat)
    requires kind != TextKind && |s| == Width(kind) && Slice(bytes, position, |s|) == Some(s)
    ensures Decode(f, kind, bytes, position) == Some((FromBytes(f, kind, s), position + |s|))
  {}

  lemma {:induction false} FixedDecodes(f: Format, item: Item, code: seq<bv8>, bytes: seq<bv8>, position: nat)
    requires !item.TextItem? && code == Encode(f, item) && Slice(bytes, position, |code|) == Some(code)
    ensures HeadDecodes(f, item, bytes, position, position + |code|)
  {
    JoinItem(f, item);
    DecodeFixed(f, KindOf(item), code, bytes, position);
  }

  lemma {:induction false} InTheMiddle(before: seq<bv8>, code: seq<bv8>, after: seq<bv8>)
    ensures Slice(before + code + after, |before|, |code|) == Some(code)
    ensures (before + code + after)[|before|..] == code + after
  {
    assert (before + code + after)[|before|..|before| + |code|] == code;
  }

  lemma {:induction false} TextDecodes(f: Format, text: string, code: seq<bv8>, before: seq<bv8>, after: seq<bv8>, bytes: seq<bv8>)
    requires code == Codes(f.charset, text) + [0] && bytes == before + code + after
    ensures HeadDecodes(f, TextItem(text), bytes, |before|, |before + code|)
  {
    InTheMiddle(before, code, after);
    DecodeText(f, text, bytes, |before|, after);
  }

  lemma {:induction false} OtherDecodes(f: Format, item: Item, code: seq<bv8>, before: seq<bv8>, after: seq<bv8>, bytes: seq<bv8>)
    requires !item.TextItem? && code == Encode(f, item) && bytes == before + code + after
    ensures HeadDecodes(f, item, bytes, |before|, |before + code|)
  {
    InTheMiddle(before, code, after);
    FixedDecodes(f, item, code, bytes, |before|);
  }

  ghost predicate AllClean(f: Format, items: seq<Item>) { forall k :: 0 <= k < |items| ==> IsClean(f, items[k]) }

  lemma {:induction false} AllCleanCons(f: Format, items: seq<Item>)
    requires items != []
    ensures AllClean(f, items) <==> IsClean(f, items[0]) && AllClean(f, items[1..])
  {
    assert forall k :: 0 < k < |items| ==> items[k] == items[1..][k - 1];
  }

  /** Reading a list is reading its head, then the rest from where the head ended. */
  lemma {:induction false} DecodeAllCons(f: Format, items: seq<Item>, bytes: seq<bv8>, position: nat, end: nat)
    requires items != []
    ensures DecodeAll(f, KindsOf(items), bytes, position) == Some((items, end))
            <==> (exists next :: Decode(f, KindOf(items[0]), bytes, position) == Some((items[0], next))
                                 && DecodeAll(f, KindsOf(items[1..]), bytes, next) == Some((items[1..], end)))
  {
    assert KindsOf(items)[0] == KindOf(items[0]) && KindsOf(items)[1..] == KindsOf(items[1..]);
    assert items == [items[0]] + items[1..];
  }

  /** The step of the round trip, for a head decoded to `item` or to something else. */
  lemma {:induction false} DecodeAllStep(f: Format, items: seq<Item>, bytes: seq<bv8>, position: nat, next: nat, end: nat)
    requires items != []
    requires HeadDecodes(f, items[0], bytes, position, next)
    requires DecodeAll(f, KindsOf(items[1..]), bytes, next) == Some((items[1..], end)) <==> AllClean(f, items[1..])
    ensures DecodeAll(f, KindsOf(items), bytes, position) == Some((items, end)) <==> AllClean(f, items)
  {
    DecodeAllCons(f, items, bytes, position, end);
    AllCleanCons(f, items);
  }

  lemma {:induction false} FirstBytes(f: Format, items: seq<Item>, before: seq<bv8>, bytes: seq<bv8>)
    requires items != [] && bytes == before + EncodeAll(f, items)
    ensures bytes == before + Encode(f, items[0]) + EncodeAll(f, items[1..])
  {
    SeqAssoc(before, Encode(f, items[0]), EncodeAll(f, items[1..]));
  }

  lemma {:induction false} DecodeAllEncoded(f: Format, items: seq<Item>, before: seq<bv8>, bytes: seq<bv8>)
    requires bytes == before + EncodeAll(f, items)
    ensures DecodeAll(f, KindsOf(items), bytes, |before|) == Some((items, |bytes|)) <==> AllClean(f, items)
    decreases |items|
  {
    if items == [] {
      assert before + [] == before;
    } else {
      var code := Encode(f, items[0]);
      FirstBytes(f, items, before, bytes);
      if items[0].TextItem? {
        TextDecodes(f, items[0].text, code, before, EncodeAll(f, items[1..]), bytes);
      } else {
        OtherDecodes(f, items[0], code, before, EncodeAll(f, items[1..]), bytes);
      }
      DecodeAllEncoded(f, items[1..], before + code, bytes);
      DecodeAllStep(f, items, bytes, |before|, |before + code|, |bytes|);
    }
  }

  /** Reading back with the same schema gives the list again exactly when all texts are clean. */
  lemma {:induction false} RoundTripIff(f: Format, items: seq<Item>)
    ensures DecodeAll(f, KindsOf(items), EncodeAll(f, items), 0) == Some((items, |EncodeAll(f, items)|))
            <==> AllClean(f, items)
  {
    assert [] + EncodeAll(f, items) == EncodeAll(f, items);
    DecodeAllEncoded(f, items, [], EncodeAll(f, items));
  }

  lemma {:induction false} EncodeAllSnoc(f: Format, items: seq<Item>, item: Item)
    ensures EncodeAll(f, items + [item]) == EncodeAll(f, items) + Encode(f, item)
    decreases |items|
  {
    if items == [] {
      assert [item][1..] == [] && EncodeAll(f, [item]) == Encode(f, item) + [];
      assert items + [item] == [item];
    } else {
      assert (items + [item])[1..] == items[1..] + [item];
      EncodeAllSnoc(f, items[1..], item);
    }
  }

  method WriteAll(buffer: BBuffer, charset: Charset, items: seq<Item>)
    requires AtEnd(buffer.position, buffer.bytes.Length)
    modifies buffer, buffer.bytes
    ensures buffer.bytes == old(buffer.bytes) || fresh(buffer.bytes)
    ensures buffer.bytes[..] == old(buffer.bytes[..]) + EncodeAll(Format(buffer.endianness, charset), items)
    ensures AtEnd(buffer.position, buffer.bytes.Length)
  {
    ghost var before := buffer.bytes[..];
    for k := 0 to |items|
      invariant buffer.bytes == old(buffer.bytes) || fresh(buffer.bytes)
      invariant AtEnd(buffer.position, buffer.bytes.Length)
      invariant buffer.bytes[..] == before + EncodeAll(Format(buffer.endianness, charset), items[..k])
    {
      WriteItem(buffer, charset, items[k]);
      EncodeAllSnoc(Format(buffer.endianness, charset), items[..k], items[k]);
      assert items[..k + 1] == items[..k] + [items[k]];
      SeqAssoc(before, EncodeAll(Format(buffer.endianness, charset), items[..k]), Encode(Format(buffer.endianness, charset), items[k]));
    }
    assert items[..|items|] == items;
  }

  lemma {:induction false} SeqAssoc(a: seq<bv8>, b: seq<bv8>, c: seq<bv8>)
    ensures a + b + c == a + (b + c)
  {}

  method ReadAll(buffer: BBuffer, charset: Charset, kinds: seq<Kind>) returns (r: Option<seq<Item>>)
    requires buffer.position >= 0
    modifies buffer`position
    ensures match DecodeAll(Format(buffer.endianness, charset), kinds, buffer.bytes[..], old(buffer.position)) {
              case None => r == None
              case Some((items, end)) => r == Some(items) && buffer.position == end
            }
  {
    if kinds == [] { return Some([]); }
    var item := ReadItem(buffer, charset, kinds[0]);
    if item.None? { return None; }
    var rest := ReadAll(buffer, charset, kinds[1..]);
    if rest.None? { return None; }
    return Some([item.value] + rest.value);
  }

  /** The whole journey on one buffer: fresh, written to the end, rewound, read to the end. */
  method WriteThenRead(f: Format, items: seq<Item>) returns (buffer: BBuffer, back: Option<seq<Item>>)
    ensures AllClean(f, items) ==> back == Some(items) && buffer.position == buffer.bytes.Length
    ensures back == Some(items) && buffer.position == buffer.bytes.Length ==> AllClean(f, items)
    ensures fresh(buffer) && buffer.bytes[..] == EncodeAll(f, items)
  {
    buffer := new BBuffer(f.endianness);
    WriteAll(buffer, f.charset, items);
    assert [] + EncodeAll(f, items) == EncodeAll(f, items);
    buffer.SetPosition(0);
    RoundTripIff(f, items);
    back := ReadAll(buffer, f.charset, KindsOf(items));
  }
}
