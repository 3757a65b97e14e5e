/** Which byte of a GGUF file holds what, and how large its tensors are. */
module GgufLaws {
  import opened Bits
  import opened Outcomes
  import opened LittleEndians
  import opened FormatLaws
  import opened Ggufs
  import opened GgufFiles

  // ----- metadata and tensor entries, by position -----

  /** A text from a to b: its length in eight bytes, and the text. */
  ghost predicate TextAt(s: seq<byte>, a: nat, b: nat, text: Name) {
    && NumberAt(s, a, 8, |text|) && b == a + 8 + |text| <= |s|
    && forall i :: 0 <= i < |text| ==> s[a + 8 + i] == text[i]
  }

  /** An item from a to b. Types 0 and 1 take one byte, 2 and 3 two, 4 to 6 four and 10 to 12 eight; 7 is a flag and 8 a
      text. */
  ghost predicate ItemAt(s: seq<byte>, a: nat, b: nat, ty: nat, item: Item) {
    match item
    case Flag(flag) => ty == 7 && b == a + 1 <= |s| && s[a] == if flag then 1 else 0
    case Text(text) => ty == 8 && TextAt(s, a, b, text)
    case Bits(raw) =>
      && a <= b && NumberAt(s, a, b - a, raw)
      && if ty == 0 || ty == 1 then b == a + 1
         else if ty == 2 || ty == 3 then b == a + 2
         else if ty == 4 || ty == 5 || ty == 6 then b == a + 4
         else (ty == 10 || ty == 11 || ty == 12) && b == a + 8
  }

  ghost predicate ItemsAt(s: seq<byte>, a: nat, b: nat, ty: nat, items: seq<Item>)
    decreases |items|
  {
    if items == [] then a == b
    else exists m: nat :: ItemAt(s, a, m, ty, items[0]) && ItemsAt(s, m, b, ty, items[1..])
  }

  /** A value: its type in four bytes and the item; or 9, the items' type in four bytes, their number in eight, and
      they. */
  ghost predicate ValueAt(s: seq<byte>, a: nat, b: nat, v: Value) {
    match v
    case Single(ty, item) => NumberAt(s, a, 4, ty) && ItemAt(s, a + 4, b, ty, item)
    case Many(elem, items) =>
      && NumberAt(s, a, 4, 9) && NumberAt(s, a + 4, 4, elem) && NumberAt(s, a + 8, 8, |items|)
      && ItemsAt(s, a + 16, b, elem, items)
  }

  ghost predicate EntryAt(s: seq<byte>, a: nat, b: nat, e: Entry) {
    exists m: nat :: TextAt(s, a, m, e.key) && ValueAt(s, m, b, e.value)
  }

  ghost predicate EntriesAt(s: seq<byte>, a: nat, b: nat, entries: seq<Entry>)
    decreases |entries|
  {
    if entries == [] then a == b
    else exists m: nat :: EntryAt(s, a, m, entries[0]) && EntriesAt(s, m, b, entries[1..])
  }

  /** A tensor: its name, the number of its dimensions in four bytes, these in eight each, its type in four bytes and
      its offset in eight. */
  ghost predicate TensorAt(s: seq<byte>, a: nat, b: nat, t: TensorInfo) {
    exists m: nat ::
      && TextAt(s, a, m, t.name) && NumberAt(s, m, 4, |t.dims|)
      && (forall i :: 0 <= i < |t.dims| ==> NumberAt(s, m + 4 + 8 * i, 8, t.dims[i]))
      && NumberAt(s, m + 4 + 8 * |t.dims|, 4, t.ty) && NumberAt(s, m + 8 + 8 * |t.dims|, 8, t.offset)
      && b == m + 16 + 8 * |t.dims|
  }

  ghost predicate TensorsAt(s: seq<byte>, a: nat, b: nat, tensors: seq<TensorInfo>)
    decreases |tensors|
  {
    if tensors == [] then a == b
    else exists m: nat :: TensorAt(s, a, m, tensors[0]) && TensorsAt(s, m, b, tensors[1..])
  }

  /** The letters GGUF, the version in four bytes, the numbers of tensors and of metadata entries in eight each, the
      entries, and the tensors. */
  ghost predicate HeaderAt(s: seq<byte>, b: nat, h: Header) {
    && |s| >= 24 && s[..4] == ['G' as int, 'G' as int, 'U' as int, 'F' as int]
    && NumberAt(s, 4, 4, h.version) && NumberAt(s, 8, 8, |h.tensors|) && NumberAt(s, 16, 8, |h.entries|)
    && exists m: nat :: EntriesAt(s, 24, m, h.entries) && TensorsAt(s, m, b, h.tensors)
  }

  // ----- a part of a file stays what it is -----

  /** The bytes of `part` are those of s from `start` on. */
  ghost predicate PartOf(part: seq<byte>, s: seq<byte>, start: nat) {
    start + |part| <= |s| && s[start..start + |part|] == part
  }

  lemma NumberMoved(part: seq<byte>, s: seq<byte>, start: nat, at: nat, w: nat, x: nat)
    requires PartOf(part, s, start) && NumberAt(part, at, w, x)
    ensures NumberAt(s, start + at, w, x)
  {
    NumberInside(part, s, start, at, w, x);
  }

  lemma TextMoved(part: seq<byte>, s: seq<byte>, start: nat, a: nat, b: nat, text: Name)
    requires PartOf(part, s, start) && TextAt(part, a, b, text)
    ensures TextAt(s, start + a, start + b, text)
  {
    hide NumberAt;
    NumberMoved(part, s, start, a, 8, |text|);
    forall i | 0 <= i < |text|
      ensures s[start + a + 8 + i] == text[i]
    {
      assert s[start..start + |part|][a + 8 + i] == part[a + 8 + i];
    }
  }

  lemma ItemMoved(part: seq<byte>, s: seq<byte>, start: nat, a: nat, b: nat, ty: nat, item: Item)
    requires PartOf(part, s, start) && ItemAt(part, a, b, ty, item)
    ensures ItemAt(s, start + a, start + b, ty, item)
  {
    hide NumberAt, TextAt;
    match item
    case Flag(flag) =>
      assert s[start..start + |part|][a] == part[a];
    case Text(text) =>
      TextMoved(part, s, start, a, b, text);
    case Bits(raw) =>
      NumberMoved(part, s, start, a, b - a, raw);
  }

  lemma {:induction false} ItemsMoved(part: seq<byte>, s: seq<byte>, start: nat, a: nat, b: nat, ty: nat,
                                      items: seq<Item>)
    requires PartOf(part, s, start) && ItemsAt(part, a, b, ty, items)
    ensures ItemsAt(s, start + a, start + b, ty, items)
    decreases |items|
  {
    hide ItemAt, PartOf;
    if items != [] {
      var m: nat :| ItemAt(part, a, m, ty, items[0]) && ItemsAt(part, m, b, ty, items[1..]);
      ItemMoved(part, s, start, a, m, ty, items[0]);
      ItemsMoved(part, s, start, m, b, ty, items[1..]);
    }
  }

  lemma ValueMoved(part: seq<byte>, s: seq<byte>, start: nat, a: nat, b: nat, v: Value)
    requires PartOf(part, s, start) && ValueAt(part, a, b, v)
    ensures ValueAt(s, start + a, start + b, v)
  {
    hide ItemAt, ItemsAt, PartOf, NumberAt;
    match v
    case Single(ty, item) =>
      NumberMoved(part, s, start, a, 4, ty);
      ItemMoved(part, s, start, a + 4, b, ty, item);
    case Many(elem, items) =>
      NumberMoved(part, s, start, a, 4, 9);
      NumberMoved(part, s, start, a + 4, 4, elem);
      NumberMoved(part, s, start, a + 8, 8, |items|);
      ItemsMoved(part, s, start, a + 16, b, elem, items);
  }

  lemma EntryMoved(part: seq<byte>, s: seq<byte>, start: nat, a: nat, b: nat, e: Entry)
    requires PartOf(part, s, start) && EntryAt(part, a, b, e)
    ensures EntryAt(s, start + a, start + b, e)
  {
    hide TextAt, ValueAt, PartOf;
    var m: nat :| TextAt(part, a, m, e.key) && ValueAt(part, m, b, e.value);
    TextMoved(part, s, start, a, m, e.key);
    ValueMoved(part, s, start, m, b, e.value);
  }

  lemma {:induction false} EntriesMoved(part: seq<byte>, s: seq<byte>, start: nat, a: nat, b: nat, entries: seq<Entry>)
    requires PartOf(part, s, start) && EntriesAt(part, a, b, entries)
    ensures EntriesAt(s, start + a, start + b, entries)
    decreases |entries|
  {
    hide EntryAt, PartOf;
    if entries != [] {
      var m: nat :| EntryAt(part, a, m, entries[0]) && EntriesAt(part, m, b, entries[1..]);
      EntryMoved(part, s, start, a, m, entries[0]);
      EntriesMoved(part, s, start, m, b, entries[1..]);
    }
  }

  lemma TensorMoved(part: seq<byte>, s: seq<byte>, start: nat, a: nat, b: nat, t: TensorInfo)
    requires PartOf(part, s, start) && TensorAt(part, a, b, t)
    ensures TensorAt(s, start + a, start + b, t)
  {
    hide TextAt, NumberAt, PartOf;
    var m: nat :|
      && TextAt(part, a, m, t.name) && NumberAt(part, m, 4, |t.dims|)
      && (forall i :: 0 <= i < |t.dims| ==> NumberAt(part, m + 4 + 8 * i, 8, t.dims[i]))
      && NumberAt(part, m + 4 + 8 * |t.dims|, 4, t.ty) && NumberAt(part, m + 8 + 8 * |t.dims|, 8, t.offset)
      && b == m + 16 + 8 * |t.dims|;
    TextMoved(part, s, start, a, m, t.name);
    NumberMoved(part, s, start, m, 4, |t.dims|);
    forall i | 0 <= i < |t.dims|
      ensures NumberAt(s, start + m + 4 + 8 * i, 8, t.dims[i])
    {
      NumberMoved(part, s, start, m + 4 + 8 * i, 8, t.dims[i]);
    }
    NumberMoved(part, s, start, m + 4 + 8 * |t.dims|, 4, t.ty);
    NumberMoved(part, s, start, m + 8 + 8 * |t.dims|, 8, t.offset);
  }

  lemma {:induction false} TensorsMoved(part: seq<byte>, s: seq<byte>, start: nat, a: nat, b: nat,
                                        tensors: seq<TensorInfo>)
    requires PartOf(part, s, start) && TensorsAt(part, a, b, tensors)
    ensures TensorsAt(s, start + a, start + b, tensors)
    decreases |tensors|
  {
    hide TensorAt, PartOf;
    if tensors != [] {
      var m: nat :| TensorAt(part, a, m, tensors[0]) && TensorsAt(part, m, b, tensors[1..]);
      TensorMoved(part, s, start, a, m, tensors[0]);
      TensorsMoved(part, s, start, m, b, tensors[1..]);
    }
  }

  // ----- what the writers put where -----

  lemma NumberWritten(x: nat, w: nat)
    ensures NumberAt(LittleEndian(x, w), 0, w, x)
  {
    WrittenNumber([], x, w, []);
    assert [] + LittleEndian(x, w) + [] == LittleEndian(x, w);
  }

  lemma Behind(a: seq<byte>, b: seq<byte>, c: seq<byte>)
    ensures PartOf(b, a + b + c, |a|)
  {
    assert (a + b + c)[|a|..|a| + |b|] == b;
  }

  lemma TextWritten(text: Name)
    ensures TextAt(WriteText(text), 0, |WriteText(text)|, text)
  {
    hide NumberAt;
    NumberWritten(|text|, 8);
    Behind([], LittleEndian(|text|, 8), text);
    assert [] + LittleEndian(|text|, 8) + text == WriteText(text);
    NumberMoved(LittleEndian(|text|, 8), WriteText(text), 0, 0, 8, |text|);
  }

  lemma ItemWritten(utf8: Utf8, ty: nat, item: Item)
    requires IsItemType(ty) && ItemOk(utf8, ty, item)
    ensures ItemAt(WriteItem(ty, item), 0, |WriteItem(ty, item)|, ty, item)
  {
    hide NumberAt, TextAt, Fits, WriteText;
    match item
    case Flag(_) =>
    case Text(text) =>
      TextWritten(text);
    case Bits(raw) =>
      NumberWritten(raw, Width(ty));
  }

  lemma {:induction false} ItemsWritten(utf8: Utf8, ty: nat, items: seq<Item>)
    requires IsItemType(ty) && ItemsOk(utf8, ty, items)
    ensures ItemsAt(WriteItems(ty, items), 0, |WriteItems(ty, items)|, ty, items)
    decreases |items|
  {
    hide ItemAt, WriteItem, ItemOk, PartOf;
    if items != [] {
      var (first, rest) := (WriteItem(ty, items[0]), WriteItems(ty, items[1..]));
      var s := WriteItems(ty, items);
      ItemWritten(utf8, ty, items[0]);
      ItemsWritten(utf8, ty, items[1..]);
      Two(first, rest);
      ItemMoved(first, s, 0, 0, |first|, ty, items[0]);
      ItemsMoved(rest, s, |first|, 0, |rest|, ty, items[1..]);
    }
  }

  lemma Two(a: seq<byte>, b: seq<byte>)
    ensures PartOf(a, a + b, 0) && PartOf(b, a + b, |a|)
  {
    Behind([], a, b);
    Behind(a, b, []);
    assert [] + a + b == a + b && a + b + [] == a + b;
  }

  lemma FiveParts(a: seq<byte>, b: seq<byte>, c: seq<byte>, d: seq<byte>, e: seq<byte>)
    ensures var s := a + b + c + d + e;
            && PartOf(a, s, 0) && PartOf(b, s, |a|) && PartOf(c, s, |a| + |b|) && PartOf(d, s, |a| + |b| + |c|)
            && PartOf(e, s, |a| + |b| + |c| + |d|)
  {
    hide PartOf;
    var s := a + b + c + d + e;
    assert [] + a + (b + c + d + e) == s && a + b + (c + d + e) == s;
    assert a + b + c + (d + e) == s && a + b + c + d + e == s;
    Behind([], a, b + c + d + e);
    Behind(a, b, c + d + e);
    Behind(a + b, c, d + e);
    Behind(a + b + c, d, e);
    Two(a + b + c + d, e);
  }

  lemma LettersFirst(s: seq<byte>)
    requires PartOf(MAGIC, s, 0)
    ensures |s| >= 4 && s[..4] == ['G' as int, 'G' as int, 'U' as int, 'F' as int]
  {
  }

  lemma ValueWritten(utf8: Utf8, v: Value)
    requires ValueOk(utf8, v)
    ensures ValueAt(WriteValue(v), 0, |WriteValue(v)|, v)
  {
    hide ItemAt, ItemsAt, PartOf, NumberAt, WriteItem, WriteItems, ItemOk, ItemsOk, Fits;
    match v
    case Single(ty, item) =>
      var (t, i) := (LittleEndian(ty, 4), WriteItem(ty, item));
      NumberWritten(ty, 4);
      ItemWritten(utf8, ty, item);
      Two(t, i);
      NumberMoved(t, t + i, 0, 0, 4, ty);
      ItemMoved(i, t + i, 4, 0, |i|, ty, item);
    case Many(elem, items) =>
      var (t, e, n) := (LittleEndian(9, 4), LittleEndian(elem, 4), LittleEndian(|items|, 8));
      var i := WriteItems(elem, items);
      var s := t + e + n + i;
      NumberWritten(9, 4);
      NumberWritten(elem, 4);
      NumberWritten(|items|, 8);
      ItemsWritten(utf8, elem, items);
      FiveParts(t, e, n, i, []);
      assert t + e + n + i + [] == s;
      NumberMoved(t, s, 0, 0, 4, 9);
      NumberMoved(e, s, 4, 0, 4, elem);
      NumberMoved(n, s, 8, 0, 8, |items|);
      ItemsMoved(i, s, 16, 0, |i|, elem, items);
  }

  lemma EntryWritten(utf8: Utf8, e: Entry)
    requires EntryOk(utf8, e)
    ensures EntryAt(WriteEntry(e), 0, |WriteEntry(e)|, e)
  {
    hide TextAt, ValueAt, PartOf, WriteText, WriteValue, TextOk, ValueOk;
    var (k, v) := (WriteText(e.key), WriteValue(e.value));
    TextWritten(e.key);
    ValueWritten(utf8, e.value);
    Two(k, v);
    TextMoved(k, k + v, 0, 0, |k|, e.key);
    ValueMoved(v, k + v, |k|, 0, |v|, e.value);
  }

  lemma {:induction false} EntriesWritten(utf8: Utf8, entries: seq<Entry>)
    requires EntriesOk(utf8, entries)
    ensures EntriesAt(WriteEntries(entries), 0, |WriteEntries(entries)|, entries)
    decreases |entries|
  {
    hide EntryAt, WriteEntry, EntryOk, PartOf;
    if entries != [] {
      var (first, rest) := (WriteEntry(entries[0]), WriteEntries(entries[1..]));
      EntryWritten(utf8, entries[0]);
      EntriesWritten(utf8, entries[1..]);
      Two(first, rest);
      EntryMoved(first, first + rest, 0, 0, |first|, entries[0]);
      EntriesMoved(rest, first + rest, |first|, 0, |rest|, entries[1..]);
    }
  }

  lemma {:induction false} DimsWritten(dims: seq<nat>, k: nat)
    requires k < |dims|
    ensures |WriteDims(dims)| == 8 * |dims| && NumberAt(WriteDims(dims), 8 * k, 8, dims[k])
    decreases |dims|
  {
    hide NumberAt, PartOf, LittleEndian;
    var (first, rest) := (LittleEndian(dims[0], 8), WriteDims(dims[1..]));
    Two(first, rest);
    if |dims| > 1 {
      DimsWritten(dims[1..], if k > 0 then k - 1 else 0);
    }
    if k == 0 {
      NumberWritten(dims[0], 8);
      NumberMoved(first, first + rest, 0, 0, 8, dims[0]);
    } else {
      NumberMoved(rest, first + rest, 8, 8 * (k - 1), 8, dims[k]);
    }
  }

  lemma NoDims(dims: seq<nat>)
    ensures dims == [] ==> WriteDims(dims) == []
  {
  }

  lemma TensorWritten(t: TensorInfo)
    ensures TensorAt(WriteTensor(t), 0, |WriteTensor(t)|, t)
  {
    hide TextAt, NumberAt, PartOf, WriteText, WriteDims, LittleEndian;
    var (name, n, dims) := (WriteText(t.name), LittleEndian(|t.dims|, 4), WriteDims(t.dims));
    var (ty, offset) := (LittleEndian(t.ty, 4), LittleEndian(t.offset, 8));
    var s := name + n + dims + ty + offset;
    TextWritten(t.name);
    NumberWritten(|t.dims|, 4);
    NumberWritten(t.ty, 4);
    NumberWritten(t.offset, 8);
    NoDims(t.dims);
    if t.dims != [] {
      DimsWritten(t.dims, 0);
    }
    FiveParts(name, n, dims, ty, offset);
    var m := |name|;
    TextMoved(name, s, 0, 0, m, t.name);
    NumberMoved(n, s, m, 0, 4, |t.dims|);
    forall i | 0 <= i < |t.dims|
      ensures NumberAt(s, m + 4 + 8 * i, 8, t.dims[i])
    {
      DimsWritten(t.dims, i);
      NumberMoved(dims, s, m + 4, 8 * i, 8, t.dims[i]);
    }
    NumberMoved(ty, s, m + 4 + |dims|, 0, 4, t.ty);
    NumberMoved(offset, s, m + 8 + |dims|, 0, 8, t.offset);
  }

  lemma {:induction false} TensorsWritten(tensors: seq<TensorInfo>)
    ensures TensorsAt(WriteTensors(tensors), 0, |WriteTensors(tensors)|, tensors)
    decreases |tensors|
  {
    hide TensorAt, WriteTensor, PartOf;
    if tensors != [] {
      var (first, rest) := (WriteTensor(tensors[0]), WriteTensors(tensors[1..]));
      TensorWritten(tensors[0]);
      TensorsWritten(tensors[1..]);
      Two(first, rest);
      TensorMoved(first, first + rest, 0, 0, |first|, tensors[0]);
      TensorsMoved(rest, first + rest, |first|, 0, |rest|, tensors[1..]);
    }
  }

  lemma HeaderWritten(utf8: Utf8, h: Header, rest: seq<byte>)
    requires HeaderOk(utf8, h)
    ensures HeaderAt(WriteHeader(h) + rest, |WriteHeader(h)|, h)
  {
    hide NumberAt, PartOf, WriteEntries, WriteTensors, LittleEndian, EntriesAt, TensorsAt, EntriesOk, TensorsOk, Fits;
    hide Fresh;
    var (v, n, k) := (LittleEndian(h.version, 4), LittleEndian(|h.tensors|, 8), LittleEndian(|h.entries|, 8));
    var (entries, tensors) := (WriteEntries(h.entries), WriteTensors(h.tensors));
    var s := WriteHeader(h) + rest;
    NumberWritten(h.version, 4);
    NumberWritten(|h.tensors|, 8);
    NumberWritten(|h.entries|, 8);
    EntriesWritten(utf8, h.entries);
    TensorsWritten(h.tensors);
    FiveParts(MAGIC, v, n, k, entries + tensors + rest);
    assert MAGIC + v + n + k + (entries + tensors + rest) == s;
    FiveParts(MAGIC + v + n + k, entries, tensors, rest, []);
    assert MAGIC + v + n + k + entries + tensors + rest + [] == s;
    LettersFirst(s);
    NumberMoved(v, s, 4, 0, 4, h.version);
    NumberMoved(n, s, 8, 0, 8, |h.tensors|);
    NumberMoved(k, s, 16, 0, 8, |h.entries|);
    EntriesMoved(entries, s, 24, 0, |entries|, h.entries);
    TensorsMoved(tensors, s, 24 + |entries|, 0, |tensors|, h.tensors);
  }

  /** Whatever header the parser accepts is laid out so in the file. */
  lemma AcceptedHeader(utf8: Utf8, s: seq<byte>)
    requires ParseHeader(utf8, s).Ok?
    ensures var (h, rest) := ParseHeader(utf8, s).value;
            |rest| <= |s| && HeaderAt(s, |s| - |rest|, h) && (h.version == 2 || h.version == 3)
  {
    hide ParseHeader, WriteHeader, HeaderAt;
    var (h, rest) := ParseHeader(utf8, s).value;
    ParsedIffWritten(utf8, s, h, rest);
    HeaderWritten(utf8, h, rest);
  }

  // ----- sizes -----

  /** How a block stores its values: bits each, low and high, bytes of scales for parts of it, and bytes of scales for
      all of it. */
  datatype Storage = Storage(values: nat, lowBits: nat, highBits: nat, partScales: nat, scales: nat)

  function StorageOf(ty: nat): Option<Storage> {
    match ty
    case 0 => Some(Storage(1, 32, 0, 0, 0))
    case 1 => Some(Storage(1, 16, 0, 0, 0))
    case 2 => Some(Storage(32, 4, 0, 0, 2))
    case 3 => Some(Storage(32, 4, 0, 0, 4))
    case 6 => Some(Storage(32, 4, 1, 0, 2))
    case 7 => Some(Storage(32, 4, 1, 0, 4))
    case 8 => Some(Storage(32, 8, 0, 0, 2))
    case 9 => Some(Storage(32, 8, 0, 0, 8))
    case 10 => Some(Storage(256, 2, 0, 16, 4))
    case 11 => Some(Storage(256, 2, 1, 12, 2))
    case 12 => Some(Storage(256, 4, 0, 12, 4))
    case 13 => Some(Storage(256, 4, 1, 12, 4))
    case 14 => Some(Storage(256, 4, 2, 16, 2))
    case 15 => Some(Storage(256, 8, 0, 32, 4))
    case _ => None
  }

  /** The size of a block is that of its values, its part scales and its scales. */
  lemma BlockSizes(ty: nat)
    ensures TypeSize(ty).Some? <==> StorageOf(ty).Some?
    ensures StorageOf(ty).Some? ==>
              var b := StorageOf(ty).value;
              && BlockSize(ty) == Some(b.values)
              && TypeSize(ty) == Some(b.values * (b.lowBits + b.highBits) / 8 + b.partScales + b.scales)
  {
  }

  lemma {:induction false} ProductJoins(a: seq<nat>, b: seq<nat>)
    ensures Product(a + b) == Product(a) * Product(b)
    ensures |b| == 1 ==> Product(b) == b[0]
    decreases |b|
  {
    if |b| == 1 {
      ProductOfOne(b[0]);
      assert b == [b[0]];
    }
    if b == [] {
      assert a + b == a;
    } else {
      var n := |b| - 1;
      ProductJoins(a, b[..n]);
      assert (a + b)[..|a + b| - 1] == a + b[..n];
      var (x, y, z) := (Product(a), Product(b[..n]), b[n]);
      assert (x * y) * z == x * (y * z);
    }
  }

  lemma ProductOfOne(n: nat)
    ensures Product([n]) == n
  {
    assert [n][..0] == [];
    assert 1 * n == n;
  }

  /** The bytes of a tensor: whole blocks of its elements, as many as its dimensions multiply to. */
  lemma TensorBytes(t: TensorInfo, len: nat)
    requires EncodedLen(t) == Ok(len)
    ensures StorageOf(t.ty).Some?
    ensures var b := StorageOf(t.ty).value;
            exists blocks: nat ::
              && Product(t.dims) == blocks * b.values
              && len == blocks * (b.values * (b.lowBits + b.highBits) / 8 + b.partScales + b.scales)
  {
    BlockSizes(t.ty);
    hide StorageOf, TypeSize, BlockSize;
    var (n, block) := (Product(t.dims), BlockSize(t.ty).value);
    assert n == block * (n / block) + n % block;
    var blocks := n / block;
    assert n == blocks * block;
    assert len == blocks * TypeSize(t.ty).value;
  }

  /** Tensor data begin at the first multiple of 32 that is not inside the header. */
  lemma DataBegins(pos: nat)
    ensures pos <= AlignUp(pos) && AlignUp(pos) % 32 == 0
    ensures forall k: nat :: k % 32 == 0 && pos <= k ==> AlignUp(pos) <= k
  {
  }

  // ----- what parsing returns -----

  /** A key stands for the value of its last entry; in an accepted file it has only one. */
  lemma {:induction false} MetadataOf(entries: seq<Entry>, key: Name, value: Value)
    ensures key in MapOf(entries) && MapOf(entries)[key] == value <==>
            exists i :: 0 <= i < |entries| && entries[i] == Entry(key, value)
                        && forall j :: i < j < |entries| ==> entries[j].key != key
    decreases |entries|
  {
    if entries != [] {
      var n := |entries| - 1;
      MetadataOf(entries[..n], key, value);
      assert entries[n] == Entry(entries[n].key, entries[n].value);
      assert forall i :: 0 <= i < n ==> entries[..n][i] == entries[i];
      if entries[n].key == key && entries[n].value == value {
        assert entries[n] == Entry(key, value);
      }
    }
  }

  /** An accepted file: its header where it belongs, its metadata and tensors those of the header, and its data from the
      first multiple of 32 on. */
  lemma AcceptedFile(utf8: Utf8, bytes: seq<byte>, withData: bool)
    requires ParseFile(utf8, bytes, withData).Ok?
    ensures var g := ParseFile(utf8, bytes, withData).value;
            exists h: Header, end: nat ::
              && HeaderAt(bytes, end, h) && g.version == h.version && g.tensors == h.tensors
              && g.metadata == MapOf(h.entries)
              && end <= g.dataOffset < end + 32 && g.dataOffset % 32 == 0
              && g.fileLen == if withData then |bytes| else g.dataOffset
  {
    hide ParseHeader, HeaderAt, MapOf;
    AcceptedHeader(utf8, bytes);
    var (h, rest) := ParseHeader(utf8, bytes).value;
    assert HeaderAt(bytes, |bytes| - |rest|, h);
  }

  /** A tensor's data are the bytes from its offset behind the data's beginning on, as many as it takes. */
  lemma TensorSlice(utf8: Utf8, bytes: seq<byte>, g: Gguf, i: nat)
    requires ParseFile(utf8, bytes, true) == Ok(g) && i < |g.tensors|
    ensures EncodedLen(g.tensors[i]).Ok?
    ensures var start, len := g.dataOffset + g.tensors[i].offset, EncodedLen(g.tensors[i]).value;
            start + len <= |bytes| && TensorData(g, bytes, g.tensors[i].name) == Ok(bytes[start..start + len])
  {
    hide ParseFile, EncodedLen, TensorData;
    AcceptedTensorsHaveTheirBytes(utf8, bytes, g);
  }
}
