/** The GGUF model file: its grammar, written and read, and the layout of its tensor data. */
module Ggufs {
  import opened Bits
  import opened Outcomes
  import opened LittleEndians

  datatype GgufError =
    | BadMagic
    | UnsupportedVersion(version: nat)
    | Truncated
    | UnsupportedValueType(valueType: nat)
    | InvalidUtf8
    | InvalidTensorOffset
    | InvalidTensorShape
    | TensorNotFound
    | DuplicateMetadataKey
    | DuplicateTensorName
    | InvalidBool
    | UnsupportedTensorType(tensorType: nat)

  type Name = seq<byte>

  /** Whether some bytes are valid UTF-8. */
  type Utf8 = seq<byte> -> bool

  type Parsed<T> = Result<(T, seq<byte>), GgufError>

  /** A number is kept as its bits. */
  datatype Item = Bits(raw: nat) | Flag(flag: bool) | Text(text: Name)

  datatype Value = Single(ty: nat, item: Item) | Many(elem: nat, items: seq<Item>)

  datatype Entry = Entry(key: Name, value: Value)

  datatype TensorInfo = TensorInfo(name: Name, dims: seq<nat>, ty: nat, offset: nat)

  datatype Header = Header(version: nat, entries: seq<Entry>, tensors: seq<TensorInfo>)

  const BOOL: nat := 7
  const STRING: nat := 8
  const ARRAY: nat := 9

  /** The types a single item can have. */
  predicate IsItemType(ty: nat) {
    ty <= 12 && ty != ARRAY
  }

  /** Bytes of a number. */
  function Width(ty: nat): nat
    requires IsItemType(ty) && ty != BOOL && ty != STRING
  {
    if ty <= 1 then 1 else if ty <= 3 then 2 else if ty <= 6 then 4 else 8
  }

  /** The least number of bytes an item takes. */
  function LeastBytes(ty: nat): nat
    requires IsItemType(ty)
  {
    if ty == BOOL then 1 else if ty == STRING then 8 else Width(ty)
  }

  // ----- numbers and strings -----

  function WriteText(text: Name): seq<byte> {
    LittleEndian(|text|, 8) + text
  }

  function ParseNumber(s: seq<byte>, w: nat): Parsed<nat> {
    if |s| < w then Err(Truncated) else Ok((FromLittleEndian(s[..w]), s[w..]))
  }

  function ParseText(utf8: Utf8, s: seq<byte>): Parsed<Name> {
    var (n, rest) :- ParseNumber(s, 8);
    if |rest| < n then Err(Truncated)
    else if !utf8(rest[..n]) then Err(InvalidUtf8)
    else Ok((rest[..n], rest[n..]))
  }

  predicate Fits(x: nat, w: nat) {
    x < Pow2(8 * w)
  }

  predicate TextOk(utf8: Utf8, text: Name) {
    utf8(text) && Fits(|text|, 8)
  }

  lemma NumberReads(x: nat, w: nat, rest: seq<byte>)
    requires Fits(x, w)
    ensures ParseNumber(LittleEndian(x, w) + rest, w) == Ok((x, rest))
  {
    var s := LittleEndian(x, w) + rest;
    NumberReadBack(x, w);
    assert s[..w] == LittleEndian(x, w) && s[w..] == rest;
  }

  lemma NumberWas(s: seq<byte>, w: nat)
    requires ParseNumber(s, w).Ok?
    ensures var (x, rest) := ParseNumber(s, w).value;
            s == LittleEndian(x, w) + rest && Fits(x, w)
  {
    NumberWrittenBack(s[..w]);
    assert s == s[..w] + s[w..];
  }

  lemma TextReads(utf8: Utf8, text: Name, rest: seq<byte>)
    requires TextOk(utf8, text)
    ensures ParseText(utf8, WriteText(text) + rest) == Ok((text, rest))
  {
    hide LittleEndian, ParseNumber, Fits;
    NumberReads(|text|, 8, text + rest);
    assert WriteText(text) + rest == LittleEndian(|text|, 8) + (text + rest);
    assert (text + rest)[..|text|] == text && (text + rest)[|text|..] == rest;
  }

  lemma TextWas(utf8: Utf8, s: seq<byte>)
    requires ParseText(utf8, s).Ok?
    ensures var (text, rest) := ParseText(utf8, s).value;
            s == WriteText(text) + rest && TextOk(utf8, text)
  {
    hide LittleEndian, ParseNumber, Fits;
    NumberWas(s, 8);
    var (text, rest) := ParseText(utf8, s).value;
    assert ParseNumber(s, 8).value.1 == text + rest;
    assert LittleEndian(|text|, 8) + (text + rest) == WriteText(text) + rest;
  }

  // ----- metadata -----

  function WriteItem(ty: nat, item: Item): seq<byte> {
    match item
    case Bits(raw) => if !IsItemType(ty) || ty == BOOL || ty == STRING then [] else LittleEndian(raw, Width(ty))
    case Flag(flag) => [if flag then 1 else 0]
    case Text(text) => WriteText(text)
  }

  predicate ItemOk(utf8: Utf8, ty: nat, item: Item)
    requires IsItemType(ty)
  {
    match item
    case Bits(raw) => ty != BOOL && ty != STRING && Fits(raw, Width(ty))
    case Flag(_) => ty == BOOL
    case Text(text) => ty == STRING && TextOk(utf8, text)
  }

  function ParseItem(utf8: Utf8, ty: nat, s: seq<byte>): Parsed<Item>
    requires IsItemType(ty)
  {
    if ty == STRING then
      var (text, rest) :- ParseText(utf8, s);
      Ok((Text(text), rest))
    else if ty == BOOL then
      var (b, rest) :- ParseNumber(s, 1);
      if b == 0 then Ok((Flag(false), rest)) else if b == 1 then Ok((Flag(true), rest)) else Err(InvalidBool)
    else
      var (raw, rest) :- ParseNumber(s, Width(ty));
      Ok((Bits(raw), rest))
  }

  lemma FlagByte(b: nat)
    requires b < 2
    ensures LittleEndian(b, 1) == [b] && Fits(b, 1)
  {
    assert LittleEndian(b / 0x100, 0) == [];
    assert Pow2(8) == 0x100;
  }

  lemma ItemReads(utf8: Utf8, ty: nat, item: Item, rest: seq<byte>)
    requires IsItemType(ty) && ItemOk(utf8, ty, item)
    ensures ParseItem(utf8, ty, WriteItem(ty, item) + rest) == Ok((item, rest))
  {
    hide ParseNumber, ParseText, Width, LittleEndian, WriteText, Fits;
    match item
    case Bits(raw) =>
      NumberReads(raw, Width(ty), rest);
    case Text(text) =>
      TextReads(utf8, text, rest);
    case Flag(flag) =>
      var b := if flag then 1 else 0;
      FlagByte(b);
      NumberReads(b, 1, rest);
  }

  lemma ItemWas(utf8: Utf8, ty: nat, s: seq<byte>)
    requires IsItemType(ty) && ParseItem(utf8, ty, s).Ok?
    ensures var (item, rest) := ParseItem(utf8, ty, s).value;
            s == WriteItem(ty, item) + rest && ItemOk(utf8, ty, item)
  {
    hide ParseNumber, ParseText, Width, LittleEndian, WriteText, Fits;
    if ty == STRING {
      TextWas(utf8, s);
    } else if ty == BOOL {
      NumberWas(s, 1);
      FlagByte(0);
      FlagByte(1);
    } else {
      NumberWas(s, Width(ty));
    }
  }

  /** The given items, one after another. */
  function WriteItems(ty: nat, items: seq<Item>): seq<byte> {
    if items == [] then [] else WriteItem(ty, items[0]) + WriteItems(ty, items[1..])
  }

  predicate ItemsOk(utf8: Utf8, ty: nat, items: seq<Item>)
    requires IsItemType(ty)
  {
    forall i :: 0 <= i < |items| ==> ItemOk(utf8, ty, items[i])
  }

  function ParseItems(utf8: Utf8, ty: nat, n: nat, s: seq<byte>): Parsed<seq<Item>>
    requires IsItemType(ty)
  {
    if n == 0 then Ok(([], s))
    else
      var (item, rest) :- ParseItem(utf8, ty, s);
      var (items, last) :- ParseItems(utf8, ty, n - 1, rest);
      Ok(([item] + items, last))
  }

  lemma {:induction false} ItemsRead(utf8: Utf8, ty: nat, items: seq<Item>, rest: seq<byte>)
    requires IsItemType(ty) && ItemsOk(utf8, ty, items)
    ensures ParseItems(utf8, ty, |items|, WriteItems(ty, items) + rest) == Ok((items, rest))
    decreases |items|
  {
    hide ParseItem, WriteItem, ItemOk;
    if items == [] {
      assert [] + rest == rest;
    } else {
      var tail := WriteItems(ty, items[1..]) + rest;
      assert WriteItems(ty, items) + rest == WriteItem(ty, items[0]) + tail;
      ItemReads(utf8, ty, items[0], tail);
      ItemsRead(utf8, ty, items[1..], rest);
      assert [items[0]] + items[1..] == items;
    }
  }

  lemma {:induction false} ItemsWere(utf8: Utf8, ty: nat, n: nat, s: seq<byte>)
    requires IsItemType(ty) && ParseItems(utf8, ty, n, s).Ok?
    ensures var (items, rest) := ParseItems(utf8, ty, n, s).value;
            |items| == n && s == WriteItems(ty, items) + rest && ItemsOk(utf8, ty, items)
  {
    hide ParseItem, WriteItem, ItemOk;
    if n > 0 {
      ItemWas(utf8, ty, s);
      var (item, tail) := ParseItem(utf8, ty, s).value;
      ItemsWere(utf8, ty, n - 1, tail);
      var (items, rest) := ParseItems(utf8, ty, n, s).value;
      assert items[1..] == ParseItems(utf8, ty, n - 1, tail).value.0;
      assert WriteItem(ty, item) + (WriteItems(ty, items[1..]) + rest) == WriteItems(ty, items) + rest;
    } else {
      assert [] + s == s;
    }
  }

  /** Items take at least their least number of bytes, so the count can be checked against what is left. */
  lemma {:induction false} ItemsTakeBytes(utf8: Utf8, ty: nat, items: seq<Item>)
    requires IsItemType(ty) && ItemsOk(utf8, ty, items)
    ensures |WriteItems(ty, items)| >= |items| * LeastBytes(ty)
  {
    hide LeastBytes, WriteItem, ItemOk;
    var least := LeastBytes(ty);
    if items == [] {
      assert 0 * least == 0;
    } else {
      ItemsTakeBytes(utf8, ty, items[1..]);
      OneItemMore(|items| - 1, least);
      ItemTakesBytes(utf8, ty, items[0]);
    }
  }

  lemma OneItemMore(n: nat, least: nat)
    ensures (n + 1) * least == n * least + least
  {
  }

  lemma ItemTakesBytes(utf8: Utf8, ty: nat, item: Item)
    requires IsItemType(ty) && ItemOk(utf8, ty, item)
    ensures |WriteItem(ty, item)| >= LeastBytes(ty)
  {
    hide Fits;
  }

  function WriteValue(v: Value): seq<byte> {
    match v
    case Single(ty, item) => LittleEndian(ty, 4) + WriteItem(ty, item)
    case Many(elem, items) =>
      LittleEndian(ARRAY, 4) + LittleEndian(elem, 4) + LittleEndian(|items|, 8) + WriteItems(elem, items)
  }

  predicate ValueOk(utf8: Utf8, v: Value) {
    match v
    case Single(ty, item) => IsItemType(ty) && ItemOk(utf8, ty, item)
    case Many(elem, items) => IsItemType(elem) && ItemsOk(utf8, elem, items) && Fits(|items|, 8)
  }

  function ParseMany(utf8: Utf8, s: seq<byte>): Parsed<Value> {
    var (elem, s1) :- ParseNumber(s, 4);
    var (n, s2) :- ParseNumber(s1, 8);
    if !IsItemType(elem) then Err(UnsupportedValueType(elem))
    else if n * LeastBytes(elem) > |s2| then Err(Truncated)
    else
      var (items, rest) :- ParseItems(utf8, elem, n, s2);
      Ok((Many(elem, items), rest))
  }

  function ParseValue(utf8: Utf8, s: seq<byte>): Parsed<Value> {
    var (ty, s1) :- ParseNumber(s, 4);
    if ty == ARRAY then ParseMany(utf8, s1)
    else if !IsItemType(ty) then Err(UnsupportedValueType(ty))
    else
      var (item, rest) :- ParseItem(utf8, ty, s1);
      Ok((Single(ty, item), rest))
  }

  lemma SmallFits(x: nat)
    requires x < 0x10
    ensures Fits(x, 4)
  {
    assert Pow2(4) == 16;
    Pow2Add(4, 28);
    ProductAtLeast(Pow2(28), 16);
  }

  lemma ManyParts(elem: nat, items: seq<Item>, rest: seq<byte>)
    requires IsItemType(elem)
    ensures WriteValue(Many(elem, items)) + rest ==
            LittleEndian(ARRAY, 4) +
            (LittleEndian(elem, 4) + (LittleEndian(|items|, 8) + (WriteItems(elem, items) + rest)))
  {
  }

  lemma ManyReads(utf8: Utf8, elem: nat, items: seq<Item>, rest: seq<byte>)
    requires ValueOk(utf8, Many(elem, items))
    ensures ParseMany(utf8, LittleEndian(elem, 4) + (LittleEndian(|items|, 8) + (WriteItems(elem, items) + rest))) ==
            Ok((Many(elem, items), rest))
  {
    hide ParseNumber, ParseItems, WriteItems, ItemsOk, LittleEndian, Fits;
    var tail := WriteItems(elem, items) + rest;
    SmallFits(elem);
    NumberReads(elem, 4, LittleEndian(|items|, 8) + tail);
    NumberReads(|items|, 8, tail);
    ItemsTakeBytes(utf8, elem, items);
    ItemsRead(utf8, elem, items, rest);
  }

  lemma ManyWere(utf8: Utf8, s: seq<byte>)
    requires ParseMany(utf8, s).Ok?
    ensures var (v, rest) := ParseMany(utf8, s).value;
            && v.Many? && ValueOk(utf8, v)
            && s == LittleEndian(v.elem, 4) + (LittleEndian(|v.items|, 8) + (WriteItems(v.elem, v.items) + rest))
  {
    hide ParseNumber, ParseItems, WriteItems, ItemsOk, LittleEndian, Fits;
    NumberWas(s, 4);
    var (elem, s1) := ParseNumber(s, 4).value;
    NumberWas(s1, 8);
    var (n, s2) := ParseNumber(s1, 8).value;
    ItemsWere(utf8, elem, n, s2);
  }

  lemma ValueReads(utf8: Utf8, v: Value, rest: seq<byte>)
    requires ValueOk(utf8, v)
    ensures ParseValue(utf8, WriteValue(v) + rest) == Ok((v, rest))
  {
    hide ParseNumber, ParseItem, ParseMany, WriteItem, WriteItems, ItemOk, ItemsOk, LittleEndian, Fits;
    match v
    case Single(ty, item) =>
      SmallFits(ty);
      assert WriteValue(v) + rest == LittleEndian(ty, 4) + (WriteItem(ty, item) + rest);
      NumberReads(ty, 4, WriteItem(ty, item) + rest);
      ItemReads(utf8, ty, item, rest);
    case Many(elem, items) =>
      SmallFits(ARRAY);
      ManyParts(elem, items, rest);
      NumberReads(ARRAY, 4, LittleEndian(elem, 4) + (LittleEndian(|items|, 8) + (WriteItems(elem, items) + rest)));
      ManyReads(utf8, elem, items, rest);
  }

  lemma ValueWas(utf8: Utf8, s: seq<byte>)
    requires ParseValue(utf8, s).Ok?
    ensures var (v, rest) := ParseValue(utf8, s).value;
            ValueOk(utf8, v) && s == WriteValue(v) + rest
  {
    hide ParseNumber, ParseItem, ParseMany, WriteItem, WriteItems, ItemOk, ItemsOk, LittleEndian, Fits;
    NumberWas(s, 4);
    var (ty, s1) := ParseNumber(s, 4).value;
    var (v, rest) := ParseValue(utf8, s).value;
    if ty == ARRAY {
      ManyWere(utf8, s1);
      ManyParts(v.elem, v.items, rest);
    } else {
      ItemWas(utf8, ty, s1);
      assert WriteValue(v) + rest == LittleEndian(ty, 4) + (WriteItem(ty, v.item) + rest);
    }
  }

  /** Names that differ from each other and from those already seen. */
  ghost predicate Fresh(names: seq<Name>, seen: set<Name>) {
    names == [] || (names[0] !in seen && Fresh(names[1..], seen + {names[0]}))
  }

  function WriteEntry(e: Entry): seq<byte> {
    WriteText(e.key) + WriteValue(e.value)
  }

  predicate EntryOk(utf8: Utf8, e: Entry) {
    TextOk(utf8, e.key) && ValueOk(utf8, e.value)
  }

  function ParseEntry(utf8: Utf8, s: seq<byte>): Parsed<Entry> {
    var (key, s1) :- ParseText(utf8, s);
    var (value, rest) :- ParseValue(utf8, s1);
    Ok((Entry(key, value), rest))
  }

  lemma EntryReads(utf8: Utf8, e: Entry, rest: seq<byte>)
    requires EntryOk(utf8, e)
    ensures ParseEntry(utf8, WriteEntry(e) + rest) == Ok((e, rest))
  {
    hide ParseText, ParseValue, WriteText, WriteValue;
    assert WriteEntry(e) + rest == WriteText(e.key) + (WriteValue(e.value) + rest);
    TextReads(utf8, e.key, WriteValue(e.value) + rest);
    ValueReads(utf8, e.value, rest);
  }

  lemma EntryWas(utf8: Utf8, s: seq<byte>)
    requires ParseEntry(utf8, s).Ok?
    ensures var (e, rest) := ParseEntry(utf8, s).value;
            EntryOk(utf8, e) && s == WriteEntry(e) + rest
  {
    hide ParseText, ParseValue, WriteText, WriteValue;
    TextWas(utf8, s);
    ValueWas(utf8, ParseText(utf8, s).value.1);
    var (e, rest) := ParseEntry(utf8, s).value;
    assert WriteEntry(e) + rest == WriteText(e.key) + (WriteValue(e.value) + rest);
  }

  function WriteEntries(entries: seq<Entry>): seq<byte> {
    if entries == [] then [] else WriteEntry(entries[0]) + WriteEntries(entries[1..])
  }

  predicate EntriesOk(utf8: Utf8, entries: seq<Entry>) {
    forall i :: 0 <= i < |entries| ==> EntryOk(utf8, entries[i])
  }

  function Keys(entries: seq<Entry>): (r: seq<Name>)
    ensures |r| == |entries|
  {
    seq(|entries|, i requires 0 <= i < |entries| => entries[i].key)
  }

  function ParseEntries(utf8: Utf8, n: nat, s: seq<byte>, seen: set<Name>): Parsed<seq<Entry>> {
    if n == 0 then Ok(([], s))
    else
      var (e, rest) :- ParseEntry(utf8, s);
      if e.key in seen then Err(DuplicateMetadataKey)
      else
        var (entries, last) :- ParseEntries(utf8, n - 1, rest, seen + {e.key});
        Ok(([e] + entries, last))
  }

  lemma {:induction false} EntriesRead(utf8: Utf8, entries: seq<Entry>, rest: seq<byte>, seen: set<Name>)
    requires EntriesOk(utf8, entries) && Fresh(Keys(entries), seen)
    ensures ParseEntries(utf8, |entries|, WriteEntries(entries) + rest, seen) == Ok((entries, rest))
    decreases |entries|
  {
    hide ParseEntry, WriteEntry, EntryOk;
    if entries == [] {
      assert [] + rest == rest;
    } else {
      var tail := WriteEntries(entries[1..]) + rest;
      assert WriteEntries(entries) + rest == WriteEntry(entries[0]) + tail;
      EntryReads(utf8, entries[0], tail);
      assert Keys(entries)[1..] == Keys(entries[1..]);
      EntriesRead(utf8, entries[1..], rest, seen + {entries[0].key});
      assert [entries[0]] + entries[1..] == entries;
    }
  }

  lemma {:induction false} EntriesWere(utf8: Utf8, n: nat, s: seq<byte>, seen: set<Name>)
    requires ParseEntries(utf8, n, s, seen).Ok?
    ensures var (entries, rest) := ParseEntries(utf8, n, s, seen).value;
            && |entries| == n && EntriesOk(utf8, entries) && Fresh(Keys(entries), seen)
            && s == WriteEntries(entries) + rest
  {
    hide ParseEntry, WriteEntry, EntryOk;
    if n > 0 {
      EntryWas(utf8, s);
      var (e, tail) := ParseEntry(utf8, s).value;
      EntriesWere(utf8, n - 1, tail, seen + {e.key});
      var (entries, rest) := ParseEntries(utf8, n, s, seen).value;
      assert entries[1..] == ParseEntries(utf8, n - 1, tail, seen + {e.key}).value.0;
      assert Keys(entries)[1..] == Keys(entries[1..]);
      assert WriteEntry(e) + (WriteEntries(entries[1..]) + rest) == WriteEntries(entries) + rest;
    } else {
      assert [] + s == s;
    }
  }

  // ----- tensors -----

  function WriteDims(dims: seq<nat>): seq<byte> {
    if dims == [] then [] else LittleEndian(dims[0], 8) + WriteDims(dims[1..])
  }

  predicate DimsOk(dims: seq<nat>) {
    forall i :: 0 <= i < |dims| ==> Fits(dims[i], 8)
  }

  function ParseDims(n: nat, s: seq<byte>): Parsed<seq<nat>> {
    if n == 0 then Ok(([], s))
    else
      var (d, rest) :- ParseNumber(s, 8);
      var (dims, last) :- ParseDims(n - 1, rest);
      Ok(([d] + dims, last))
  }

  lemma {:induction false} DimsRead(dims: seq<nat>, rest: seq<byte>)
    requires DimsOk(dims)
    ensures ParseDims(|dims|, WriteDims(dims) + rest) == Ok((dims, rest))
    decreases |dims|
  {
    hide ParseNumber, LittleEndian, Fits;
    if dims == [] {
      assert [] + rest == rest;
    } else {
      var tail := WriteDims(dims[1..]) + rest;
      assert WriteDims(dims) + rest == LittleEndian(dims[0], 8) + tail;
      NumberReads(dims[0], 8, tail);
      DimsRead(dims[1..], rest);
      assert [dims[0]] + dims[1..] == dims;
    }
  }

  lemma {:induction false} DimsWere(n: nat, s: seq<byte>)
    requires ParseDims(n, s).Ok?
    ensures var (dims, rest) := ParseDims(n, s).value;
            |dims| == n && DimsOk(dims) && s == WriteDims(dims) + rest
  {
    hide ParseNumber, LittleEndian, Fits;
    if n > 0 {
      NumberWas(s, 8);
      var (d, tail) := ParseNumber(s, 8).value;
      DimsWere(n - 1, tail);
      var (dims, rest) := ParseDims(n, s).value;
      assert dims[1..] == ParseDims(n - 1, tail).value.0;
      assert LittleEndian(d, 8) + (WriteDims(dims[1..]) + rest) == WriteDims(dims) + rest;
    } else {
      assert [] + s == s;
    }
  }

  function WriteTensor(t: TensorInfo): seq<byte> {
    WriteText(t.name) + LittleEndian(|t.dims|, 4) + WriteDims(t.dims) + LittleEndian(t.ty, 4)
    + LittleEndian(t.offset, 8)
  }

  predicate TensorOk(utf8: Utf8, t: TensorInfo) {
    TextOk(utf8, t.name) && Fits(|t.dims|, 4) && DimsOk(t.dims) && Fits(t.ty, 4) && Fits(t.offset, 8)
  }

  function ParseTensor(utf8: Utf8, s: seq<byte>): Parsed<TensorInfo> {
    var (name, s1) :- ParseText(utf8, s);
    var (n, s2) :- ParseNumber(s1, 4);
    var (dims, s3) :- ParseDims(n, s2);
    var (ty, s4) :- ParseNumber(s3, 4);
    var (offset, rest) :- ParseNumber(s4, 8);
    Ok((TensorInfo(name, dims, ty, offset), rest))
  }

  lemma TensorParts(t: TensorInfo, rest: seq<byte>)
    ensures WriteTensor(t) + rest ==
            WriteText(t.name) + (LittleEndian(|t.dims|, 4) + (WriteDims(t.dims) +
              (LittleEndian(t.ty, 4) + (LittleEndian(t.offset, 8) + rest))))
  {
    hide WriteText, WriteDims, LittleEndian;
    var (a, b, c, d, e) := (WriteText(t.name), LittleEndian(|t.dims|, 4), WriteDims(t.dims), LittleEndian(t.ty, 4),
                            LittleEndian(t.offset, 8));
    assert a + b + c + d + e + rest == a + (b + (c + (d + (e + rest))));
  }

  lemma TensorReads(utf8: Utf8, t: TensorInfo, rest: seq<byte>)
    requires TensorOk(utf8, t)
    ensures ParseTensor(utf8, WriteTensor(t) + rest) == Ok((t, rest))
  {
    hide ParseText, ParseNumber, ParseDims, WriteText, WriteDims, LittleEndian, Fits, DimsOk, WriteTensor;
    TensorParts(t, rest);
    var s4 := LittleEndian(t.offset, 8) + rest;
    var s3 := LittleEndian(t.ty, 4) + s4;
    var s2 := WriteDims(t.dims) + s3;
    TextReads(utf8, t.name, LittleEndian(|t.dims|, 4) + s2);
    NumberReads(|t.dims|, 4, s2);
    DimsRead(t.dims, s3);
    NumberReads(t.ty, 4, s4);
    NumberReads(t.offset, 8, rest);
  }

  lemma TensorWas(utf8: Utf8, s: seq<byte>)
    requires ParseTensor(utf8, s).Ok?
    ensures var (t, rest) := ParseTensor(utf8, s).value;
            TensorOk(utf8, t) && s == WriteTensor(t) + rest
  {
    hide ParseText, ParseNumber, ParseDims, WriteText, WriteDims, LittleEndian, Fits, DimsOk, WriteTensor;
    var s1 := ParseText(utf8, s).value.1;
    var (n, s2) := ParseNumber(s1, 4).value;
    var s3 := ParseDims(n, s2).value.1;
    var s4 := ParseNumber(s3, 4).value.1;
    TextWas(utf8, s);
    NumberWas(s1, 4);
    DimsWere(n, s2);
    NumberWas(s3, 4);
    NumberWas(s4, 8);
    var (t, rest) := ParseTensor(utf8, s).value;
    TensorParts(t, rest);
  }

  function WriteTensors(tensors: seq<TensorInfo>): seq<byte> {
    if tensors == [] then [] else WriteTensor(tensors[0]) + WriteTensors(tensors[1..])
  }

  predicate TensorsOk(utf8: Utf8, tensors: seq<TensorInfo>) {
    forall i :: 0 <= i < |tensors| ==> TensorOk(utf8, tensors[i])
  }

  function Names(tensors: seq<TensorInfo>): (r: seq<Name>)
    ensures |r| == |tensors|
  {
    seq(|tensors|, i requires 0 <= i < |tensors| => tensors[i].name)
  }

  function ParseTensors(utf8: Utf8, n: nat, s: seq<byte>, seen: set<Name>): Parsed<seq<TensorInfo>> {
    if n == 0 then Ok(([], s))
    else
      var (t, rest) :- ParseTensor(utf8, s);
      if t.name in seen then Err(DuplicateTensorName)
      else
        var (tensors, last) :- ParseTensors(utf8, n - 1, rest, seen + {t.name});
        Ok(([t] + tensors, last))
  }

  lemma {:induction false} TensorsRead(utf8: Utf8, tensors: seq<TensorInfo>, rest: seq<byte>, seen: set<Name>)
    requires TensorsOk(utf8, tensors) && Fresh(Names(tensors), seen)
    ensures ParseTensors(utf8, |tensors|, WriteTensors(tensors) + rest, seen) == Ok((tensors, rest))
    decreases |tensors|
  {
    hide ParseTensor, WriteTensor, TensorOk;
    if tensors == [] {
      assert [] + rest == rest;
    } else {
      var tail := WriteTensors(tensors[1..]) + rest;
      assert WriteTensors(tensors) + rest == WriteTensor(tensors[0]) + tail;
      TensorReads(utf8, tensors[0], tail);
      assert Names(tensors)[1..] == Names(tensors[1..]);
      TensorsRead(utf8, tensors[1..], rest, seen + {tensors[0].name});
      assert [tensors[0]] + tensors[1..] == tensors;
    }
  }

  lemma {:induction false} TensorsWere(utf8: Utf8, n: nat, s: seq<byte>, seen: set<Name>)
    requires ParseTensors(utf8, n, s, seen).Ok?
    ensures var (tensors, rest) := ParseTensors(utf8, n, s, seen).value;
            && |tensors| == n && TensorsOk(utf8, tensors) && Fresh(Names(tensors), seen)
            && s == WriteTensors(tensors) + rest
  {
    hide ParseTensor, WriteTensor, TensorOk;
    if n > 0 {
      TensorWas(utf8, s);
      var (t, tail) := ParseTensor(utf8, s).value;
      TensorsWere(utf8, n - 1, tail, seen + {t.name});
      var (tensors, rest) := ParseTensors(utf8, n, s, seen).value;
      assert tensors[1..] == ParseTensors(utf8, n - 1, tail, seen + {t.name}).value.0;
      assert Names(tensors)[1..] == Names(tensors[1..]);
      assert WriteTensor(t) + (WriteTensors(tensors[1..]) + rest) == WriteTensors(tensors) + rest;
    } else {
      assert [] + s == s;
    }
  }

  /** A tensor's entry takes at least 24 bytes, so the count can be checked against what is left. */
  lemma {:induction false} TensorsTakeBytes(tensors: seq<TensorInfo>)
    ensures |WriteTensors(tensors)| >= 24 * |tensors|
  {
    if tensors != [] {
      TensorsTakeBytes(tensors[1..]);
    }
  }
}
