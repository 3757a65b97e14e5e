/** Reading and writing GGUF files as it runs: a reader that moves through the bytes, and a writer that collects
    tensors. */
module GgufLoops {
  import opened Bits
  import opened Outcomes
  import opened LittleEndians
  import opened Ggufs
  import opened GgufFiles

  /** A step of the reader did what the grammar says for the bytes that were left. */
  ghost predicate Agrees<T>(spec: Parsed<T>, r: Result<T, GgufError>, rest: seq<byte>) {
    if spec.Ok? then r == Ok(spec.value.0) && rest == spec.value.1 else r == Err(spec.error)
  }

  /** Items read so far, and what reading the others gives. */
  ghost function Led<T>(done: seq<T>, spec: Parsed<seq<T>>): Parsed<seq<T>> {
    if spec.Err? then spec else Ok((done + spec.value.0, spec.value.1))
  }

  lemma LedBehind<T>(done: seq<T>, x: T, spec: Parsed<seq<T>>)
    ensures spec.Ok? ==> Led(done + [x], spec) == Ok((done + ([x] + spec.value.0), spec.value.1))
  {
    if spec.Ok? {
      assert done + ([x] + spec.value.0) == done + [x] + spec.value.0;
    }
  }

  lemma LedNothing<T>(spec: Parsed<seq<T>>)
    ensures Led([], spec) == spec
  {
    if spec.Ok? {
      assert [] + spec.value.0 == spec.value.0;
    }
  }

  class Reader {
    const bytes: seq<byte>
    var pos: nat

    ghost predicate Valid()
      reads this
    {
      pos <= |bytes| < WORD
    }

    ghost function Rest(): seq<byte>
      reads this
      requires Valid()
    {
      bytes[pos..]
    }

    constructor (bytes: seq<byte>)
      requires |bytes| < WORD
      ensures Valid() && this.bytes == bytes && Rest() == bytes
    {
      this.bytes, pos := bytes, 0;
    }

    method ReadExact(n: nat) returns (r: Result<seq<byte>, GgufError>)
      requires Valid()
      modifies this
      ensures Valid()
      ensures if |old(Rest())| < n then r == Err(Truncated)
              else r == Ok(old(Rest())[..n]) && Rest() == old(Rest())[n..]
    {
      if pos + n >= WORD || pos + n > |bytes| {
        return Err(Truncated);
      }
      assert bytes[pos..][..n] == bytes[pos..pos + n];
      r := Ok(bytes[pos..pos + n]);
      pos := pos + n;
    }

    method EnsureCount(n: nat, least: nat) returns (r: Result<(), GgufError>)
      requires Valid()
      ensures r == if n * least > |Rest()| then Err(Truncated) else Ok(())
    {
      if n * least >= WORD || pos + n * least >= WORD || pos + n * least > |bytes| {
        return Err(Truncated);
      }
      r := Ok(());
    }

    method Number(w: nat) returns (r: Result<nat, GgufError>)
      requires Valid()
      modifies this
      ensures Valid() && Agrees(ParseNumber(old(Rest()), w), r, Rest())
    {
      var raw := ReadExact(w);
      if raw.Err? {
        return Err(raw.error);
      }
      r := Ok(FromLittleEndian(raw.value));
    }

    method Text(utf8: Utf8) returns (r: Result<Name, GgufError>)
      requires Valid()
      modifies this
      ensures Valid() && Agrees(ParseText(utf8, old(Rest())), r, Rest())
    {
      hide ParseNumber;
      var n := Number(8);
      if n.Err? {
        return Err(n.error);
      }
      r := ReadExact(n.value);
      if r.Ok? && !utf8(r.value) {
        r := Err(InvalidUtf8);
      }
    }

    method ReadItem(utf8: Utf8, ty: nat) returns (r: Result<Item, GgufError>)
      requires Valid() && IsItemType(ty)
      modifies this
      ensures Valid() && Agrees(ParseItem(utf8, ty, old(Rest())), r, Rest())
    {
      hide ParseNumber, ParseText, Width;
      if ty == STRING {
        var text := Text(utf8);
        return if text.Err? then Err(text.error) else Ok(Item.Text(text.value));
      }
      var raw := Number(if ty == BOOL then 1 else Width(ty));
      if raw.Err? {
        return Err(raw.error);
      }
      if ty == BOOL {
        if raw.value > 1 {
          return Err(InvalidBool);
        }
        return Ok(Flag(raw.value == 1));
      }
      r := Ok(Item.Bits(raw.value));
    }

    method ReadItems(utf8: Utf8, ty: nat, n: nat) returns (r: Result<seq<Item>, GgufError>)
      requires Valid() && IsItemType(ty)
      modifies this
      ensures Valid() && Agrees(ParseItems(utf8, ty, n, old(Rest())), r, Rest())
    {
      hide ParseItem;
      var out: seq<Item> := [];
      LedNothing(ParseItems(utf8, ty, n, Rest()));
      for i := 0 to n
        invariant Valid()
        invariant ParseItems(utf8, ty, n, old(Rest())) == Led(out, ParseItems(utf8, ty, n - i, Rest()))
      {
        ghost var before := Rest();
        var item := ReadItem(utf8, ty);
        if item.Err? {
          return Err(item.error);
        }
        LedBehind(out, item.value, ParseItems(utf8, ty, n - i - 1, Rest()));
        out := out + [item.value];
      }
      assert out + [] == out;
      r := Ok(out);
    }

    method ReadMany(utf8: Utf8) returns (r: Result<Value, GgufError>)
      requires Valid()
      modifies this
      ensures Valid() && Agrees(ParseMany(utf8, old(Rest())), r, Rest())
    {
      hide ParseNumber, ParseItems, LeastBytes;
      var elem := Number(4);
      if elem.Err? {
        return Err(elem.error);
      }
      var n := Number(8);
      if n.Err? {
        return Err(n.error);
      }
      if !IsItemType(elem.value) {
        return Err(UnsupportedValueType(elem.value));
      }
      var enough := EnsureCount(n.value, LeastBytes(elem.value));
      if enough.Err? {
        return Err(enough.error);
      }
      var items := ReadItems(utf8, elem.value, n.value);
      r := if items.Err? then Err(items.error) else Ok(Many(elem.value, items.value));
    }

    method ReadValue(utf8: Utf8) returns (r: Result<Value, GgufError>)
      requires Valid()
      modifies this
      ensures Valid() && Agrees(ParseValue(utf8, old(Rest())), r, Rest())
    {
      hide ParseNumber, ParseItem, ParseMany;
      var ty := Number(4);
      if ty.Err? {
        return Err(ty.error);
      }
      if ty.value == ARRAY {
        r := ReadMany(utf8);
      } else if !IsItemType(ty.value) {
        r := Err(UnsupportedValueType(ty.value));
      } else {
        var item := ReadItem(utf8, ty.value);
        r := if item.Err? then Err(item.error) else Ok(Single(ty.value, item.value));
      }
    }

    method ReadEntry(utf8: Utf8) returns (r: Result<Entry, GgufError>)
      requires Valid()
      modifies this
      ensures Valid() && Agrees(ParseEntry(utf8, old(Rest())), r, Rest())
    {
      hide ParseText, ParseValue;
      var key := Text(utf8);
      if key.Err? {
        return Err(key.error);
      }
      var value := ReadValue(utf8);
      r := if value.Err? then Err(value.error) else Ok(Entry(key.value, value.value));
    }

    /** The metadata, as a map that refuses a key it already has. */
    method ReadEntries(utf8: Utf8, n: nat) returns (r: Result<map<Name, Value>, GgufError>, ghost entries: seq<Entry>)
      requires Valid()
      modifies this
      ensures Valid()
      ensures r.Ok? ==> Agrees(ParseEntries(utf8, n, old(Rest()), {}), Ok(entries), Rest()) && r.value == MapOf(entries)
      ensures r.Err? ==> ParseEntries(utf8, n, old(Rest()), {}) == Err(r.error)
    {
      hide ParseEntry, MapOf;
      NoEntries();
      var metadata: map<Name, Value> := map[];
      ghost var seen: set<Name> := {};
      entries := [];
      LedNothing(ParseEntries(utf8, n, Rest(), {}));
      for i := 0 to n
        invariant Valid() && metadata == MapOf(entries) && seen == metadata.Keys
        invariant ParseEntries(utf8, n, old(Rest()), {}) == Led(entries, ParseEntries(utf8, n - i, Rest(), seen))
      {
        var entry := ReadEntry(utf8);
        if entry.Err? {
          return Err(entry.error), entries;
        }
        var e := entry.value;
        if e.key in metadata {
          return Err(DuplicateMetadataKey), entries;
        }
        LedBehind(entries, e, ParseEntries(utf8, n - i - 1, Rest(), seen + {e.key}));
        MapGrows(entries, e);
        metadata, seen := metadata[e.key := e.value], seen + {e.key};
        entries := entries + [e];
      }
      assert entries + [] == entries;
      r := Ok(metadata);
    }

    method ReadDims(n: nat) returns (r: Result<seq<nat>, GgufError>)
      requires Valid()
      modifies this
      ensures Valid() && Agrees(ParseDims(n, old(Rest())), r, Rest())
    {
      hide ParseNumber;
      var dims: seq<nat> := [];
      LedNothing(ParseDims(n, Rest()));
      for i := 0 to n
        invariant Valid()
        invariant ParseDims(n, old(Rest())) == Led(dims, ParseDims(n - i, Rest()))
      {
        var d := Number(8);
        if d.Err? {
          return Err(d.error);
        }
        LedBehind(dims, d.value, ParseDims(n - i - 1, Rest()));
        dims := dims + [d.value];
      }
      assert dims + [] == dims;
      r := Ok(dims);
    }

    method ReadTensor(utf8: Utf8) returns (r: Result<TensorInfo, GgufError>)
      requires Valid()
      modifies this
      ensures Valid() && Agrees(ParseTensor(utf8, old(Rest())), r, Rest())
    {
      hide ParseText, ParseNumber, ParseDims;
      var name := Text(utf8);
      if name.Err? {
        return Err(name.error);
      }
      var n := Number(4);
      if n.Err? {
        return Err(n.error);
      }
      var dims := ReadDims(n.value);
      if dims.Err? {
        return Err(dims.error);
      }
      var ty := Number(4);
      if ty.Err? {
        return Err(ty.error);
      }
      var offset := Number(8);
      if offset.Err? {
        return Err(offset.error);
      }
      r := Ok(TensorInfo(name.value, dims.value, ty.value, offset.value));
    }

    /** The tensor entries, refusing a name that one of them already has. */
    method ReadTensors(utf8: Utf8, n: nat) returns (r: Result<seq<TensorInfo>, GgufError>)
      requires Valid()
      modifies this
      ensures Valid() && Agrees(ParseTensors(utf8, n, old(Rest()), {}), r, Rest())
    {
      hide ParseTensor;
      var tensors: seq<TensorInfo> := [];
      ghost var seen: set<Name> := {};
      LedNothing(ParseTensors(utf8, n, Rest(), {}));
      for i := 0 to n
        invariant Valid()
        invariant forall name :: name in seen <==> exists k :: 0 <= k < |tensors| && tensors[k].name == name
        invariant ParseTensors(utf8, n, old(Rest()), {}) == Led(tensors, ParseTensors(utf8, n - i, Rest(), seen))
      {
        var tensor := ReadTensor(utf8);
        if tensor.Err? {
          return Err(tensor.error);
        }
        var t := tensor.value;
        if exists k :: 0 <= k < |tensors| && tensors[k].name == t.name {
          return Err(DuplicateTensorName);
        }
        LedBehind(tensors, t, ParseTensors(utf8, n - i - 1, Rest(), seen + {t.name}));
        SeenMore(tensors, t, seen);
        tensors, seen := tensors + [t], seen + {t.name};
      }
      assert tensors + [] == tensors;
      r := Ok(tensors);
    }
  }

  lemma NoEntries()
    ensures MapOf([]) == map[]
  {
  }

  lemma MapGrows(entries: seq<Entry>, e: Entry)
    ensures MapOf(entries + [e]) == MapOf(entries)[e.key := e.value]
    ensures MapOf(entries + [e]).Keys == MapOf(entries).Keys + {e.key}
  {
    assert (entries + [e])[..|entries|] == entries;
  }

  lemma SeenMore(tensors: seq<TensorInfo>, t: TensorInfo, seen: set<Name>)
    requires forall name :: name in seen <==> exists k :: 0 <= k < |tensors| && tensors[k].name == name
    ensures var all := tensors + [t];
            forall name :: name in seen + {t.name} <==> exists k :: 0 <= k < |all| && all[k].name == name
  {
    var all := tensors + [t];
    forall name
      ensures name in seen + {t.name} <==> exists k :: 0 <= k < |all| && all[k].name == name
    {
      if name in seen {
        var k :| 0 <= k < |tensors| && tensors[k].name == name;
        assert all[k].name == name;
      }
      if name == t.name {
        assert all[|tensors|].name == name;
      }
    }
  }

  // ----- layout -----

  lemma ProductGrows(dims: seq<nat>, i: nat)
    requires i < |dims|
    ensures Product(dims[..i + 1]) == Product(dims[..i]) * dims[i]
  {
    assert dims[..i + 1][..i] == dims[..i];
  }

  /** Once the product is zero or too large it stays so, unless it becomes zero. */
  lemma {:induction false} ProductSpoiled(dims: seq<nat>, i: nat)
    requires i <= |dims| && (Product(dims[..i]) == 0 || Product(dims[..i]) >= WORD)
    ensures Product(dims) == 0 || Product(dims) >= WORD
    decreases |dims| - i
  {
    if i == |dims| {
      assert dims[..i] == dims;
    } else {
      ProductGrows(dims, i);
      if dims[i] > 0 && Product(dims[..i]) > 0 {
        ProductAtLeast(dims[i], Product(dims[..i]));
      }
      ProductSpoiled(dims, i + 1);
    }
  }

  method CountElements(dims: seq<nat>) returns (r: Result<nat, GgufError>)
    ensures r == ElementCount(dims)
  {
    hide Product;
    if dims == [] {
      return Err(InvalidTensorShape);
    }
    var n := 1;
    NoDims(dims);
    for i := 0 to |dims|
      invariant n == Product(dims[..i]) && 0 < n < WORD
    {
      ProductGrows(dims, i);
      if dims[i] == 0 || n * dims[i] >= WORD {
        ProductSpoiled(dims, i + 1);
        return Err(InvalidTensorShape);
      }
      ProductAtLeast(dims[i], n);
      n := n * dims[i];
    }
    assert dims[..|dims|] == dims;
    r := Ok(n);
  }

  lemma NoDims(dims: seq<nat>)
    ensures Product(dims[..0]) == 1
  {
  }

  method LengthOf(t: TensorInfo) returns (r: Result<nat, GgufError>)
    ensures r == EncodedLen(t)
  {
    var n := CountElements(t.dims);
    if n.Err? {
      return Err(n.error);
    }
    var (size, block) := (TypeSize(t.ty), BlockSize(t.ty));
    if size.None? {
      return Err(UnsupportedTensorType(t.ty));
    }
    if n.value % block.value != 0 {
      return Err(InvalidTensorShape);
    }
    WholeBlocks(n.value, block.value, size.value);
    if n.value / block.value * size.value >= WORD {
      return Err(InvalidTensorShape);
    }
    r := Ok(n.value / block.value * size.value);
  }

  lemma RangesTurn(dataOffset: nat, fileLen: nat, tensors: seq<TensorInfo>, i: nat, done: seq<Range>)
    requires i < |tensors|
    ensures var first := RangeOf(dataOffset, fileLen, tensors[i]);
            Prefixed(done, Ranges(dataOffset, fileLen, tensors[i..])) ==
            if first.Err? then Err(first.error)
            else Prefixed(done + [first.value], Ranges(dataOffset, fileLen, tensors[i + 1..]))
  {
    hide RangeOf;
    assert tensors[i..][1..] == tensors[i + 1..];
    var rest := Ranges(dataOffset, fileLen, tensors[i + 1..]);
    var first := RangeOf(dataOffset, fileLen, tensors[i]);
    if first.Ok? && rest.Ok? {
      assert done + ([first.value] + rest.value) == done + [first.value] + rest.value;
    }
  }

  method ValidateTensorDataLayout(dataOffset: nat, fileLen: nat, tensors: seq<TensorInfo>)
    returns (r: Result<(), GgufError>)
    ensures r == CheckLayout(dataOffset, fileLen, tensors)
  {
    hide EncodedLen, SortByStart, Ranges;
    var ranges: seq<Range> := [];
    PrefixedNothing(Ranges(dataOffset, fileLen, tensors));
    assert tensors[0..] == tensors;
    for i := 0 to |tensors|
      invariant Ranges(dataOffset, fileLen, tensors) == Prefixed(ranges, Ranges(dataOffset, fileLen, tensors[i..]))
    {
      RangesTurn(dataOffset, fileLen, tensors, i, ranges);
      var len := LengthOf(tensors[i]);
      if len.Err? {
        return Err(len.error);
      }
      var start := dataOffset + tensors[i].offset;
      if start >= WORD || start + len.value >= WORD {
        return Err(InvalidTensorOffset);
      }
      if start + len.value > fileLen {
        return Err(Truncated);
      }
      ranges := ranges + [Range(start, start + len.value)];
    }
    NoRangesLeft(dataOffset, fileLen, tensors, ranges);
    var sorted := SortByStart(ranges);
    for i := 0 to if |sorted| < 2 then 0 else |sorted| - 1
      invariant forall k :: 0 < k <= i && k < |sorted| ==> sorted[k - 1].end <= sorted[k].start
    {
      if sorted[i].end > sorted[i + 1].start {
        assert !(sorted[i + 1 - 1].end <= sorted[i + 1].start);
        return Err(InvalidTensorOffset);
      }
    }
    r := Ok(());
  }

  lemma NoRangesLeft(dataOffset: nat, fileLen: nat, tensors: seq<TensorInfo>, done: seq<Range>)
    ensures Prefixed(done, Ranges(dataOffset, fileLen, tensors[|tensors|..])) == Ok(done)
  {
    assert done + [] == done;
  }

  // ----- the parser -----

  method ParseInner(utf8: Utf8, bytes: seq<byte>, withData: bool) returns (r: Result<Gguf, GgufError>)
    requires |bytes| < WORD
    ensures r == ParseFile(utf8, bytes, withData)
  {
    hide ParseHeader, Placed;
    var reader := new Reader(bytes);
    var version, metadata, tensors;
    ghost var entries;
    version, metadata, tensors, entries := ReadHeader(reader, utf8);
    if version.Err? {
      return Err(version.error);
    }
    r := Place(version.value, metadata, tensors, reader.pos, |bytes|, withData, entries);
  }

  /** Magic, version, counts, metadata and tensor entries. */
  method ReadHeader(reader: Reader, utf8: Utf8)
    returns (version: Result<nat, GgufError>, metadata: map<Name, Value>, tensors: seq<TensorInfo>,
             ghost entries: seq<Entry>)
    requires reader.Valid()
    modifies reader
    ensures reader.Valid()
    ensures var spec := ParseHeader(utf8, old(reader.Rest()));
            if version.Err? then spec == Err(version.error)
            else spec == Ok((Header(version.value, entries, tensors), reader.Rest())) && metadata == MapOf(entries)
  {
    hide ParseNumber, ParseCounted, MapOf;
    metadata, tensors, entries := map[], [], [];
    var magic := reader.ReadExact(4);
    if magic.Err? {
      version := Err(magic.error);
      return;
    }
    if magic.value != MAGIC {
      version := Err(BadMagic);
      return;
    }
    version := reader.Number(4);
    if version.Err? {
      return;
    }
    if version.value != 2 && version.value != 3 {
      version := Err(UnsupportedVersion(version.value));
      return;
    }
    var counted;
    counted, entries := ReadCounted(reader, utf8, version.value);
    if counted.Err? {
      version := Err(counted.error);
      return;
    }
    metadata, tensors := counted.value.0, counted.value.1;
  }

  /** Find the data region, and check the tensors against it. */
  method Place(version: nat, metadata: map<Name, Value>, tensors: seq<TensorInfo>, pos: nat, fileLen: nat,
               withData: bool, ghost entries: seq<Entry>)
    returns (r: Result<Gguf, GgufError>)
    requires metadata == MapOf(entries)
    ensures r == Placed(Header(version, entries, tensors), pos, fileLen, withData)
  {
    hide CheckLayout, AlignUp, MapOf;
    if pos + ALIGNMENT - 1 >= WORD {
      return Err(Truncated);
    }
    var dataOffset := AlignUp(pos);
    if withData && dataOffset > fileLen {
      return Err(Truncated);
    }
    if withData {
      var layout := ValidateTensorDataLayout(dataOffset, fileLen, tensors);
      if layout.Err? {
        return Err(layout.error);
      }
    }
    r := Ok(Gguf(version, metadata, tensors, dataOffset, if withData then fileLen else dataOffset));
  }

  /** The counts, the metadata and the tensor entries. */
  method ReadCounted(reader: Reader, utf8: Utf8, version: nat)
    returns (r: Result<(map<Name, Value>, seq<TensorInfo>), GgufError>, ghost entries: seq<Entry>)
    requires reader.Valid()
    modifies reader
    ensures reader.Valid()
    ensures var spec := ParseCounted(utf8, version, old(reader.Rest()));
            if r.Err? then spec == Err(r.error)
            else spec == Ok((Header(version, entries, r.value.1), reader.Rest())) && r.value.0 == MapOf(entries)
  {
    hide ParseNumber, ParseEntries, ParseTensors, MapOf;
    entries := [];
    var tensorCount := reader.Number(8);
    if tensorCount.Err? {
      return Err(tensorCount.error), entries;
    }
    var metadataCount := reader.Number(8);
    if metadataCount.Err? {
      return Err(metadataCount.error), entries;
    }
    var metadata;
    metadata, entries := reader.ReadEntries(utf8, metadataCount.value);
    if metadata.Err? {
      return Err(metadata.error), entries;
    }
    var enough := reader.EnsureCount(tensorCount.value, 24);
    if enough.Err? {
      return Err(enough.error), entries;
    }
    var tensors := reader.ReadTensors(utf8, tensorCount.value);
    r := if tensors.Err? then Err(tensors.error) else Ok((metadata.value, tensors.value));
  }

  // ----- the writer -----

  lemma {:induction false} InfosAppend(pushed: seq<Pushed>, p: Pushed, offset: nat)
    ensures Data(pushed + [p]) == Data(pushed) + p.payload
    ensures Infos(pushed + [p], offset) ==
            Infos(pushed, offset) + [TensorInfo(p.name, p.dims, p.ty, offset + |Data(pushed)|)]
    decreases |pushed|
  {
    var all := pushed + [p];
    if pushed == [] {
      assert all == [p] && all[1..] == [];
    } else {
      var (first, n) := (pushed[0].payload, offset + |pushed[0].payload|);
      assert all[1..] == pushed[1..] + [p] && all[0] == pushed[0];
      InfosAppend(pushed[1..], p, n);
      hide Infos, Data;
      InfosHead(pushed, offset);
      InfosHead(all, offset);
      var tail := Data(pushed[1..]);
      assert first + (tail + p.payload) == (first + tail) + p.payload;
    }
  }

  /** The bytes of the first n blocks. */
  function Blocks(block: nat -> seq<byte>, n: nat): seq<byte> {
    if n == 0 then [] else Blocks(block, n - 1) + block(n - 1)
  }

  lemma {:induction false} BlocksLength(block: nat -> seq<byte>, n: nat, size: nat)
    requires forall i: nat :: |block(i)| == size
    ensures |Blocks(block, n)| == n * size
  {
    if n > 0 {
      BlocksLength(block, n - 1, size);
      assert n * size == (n - 1) * size + size;
    }
  }

  /** A tensor as the writers are asked for it: rows of blocks, or a vector of floats that all have the same bytes. */
  datatype Spec =
    | Matrix(name: Name, rows: nat, cols: nat, ty: nat, block: nat -> seq<byte>)
    | Vector(name: Name, len: nat, value: seq<byte>)

  /** The blocks have the size of their type. */
  ghost predicate SpecTyped(spec: Spec) {
    match spec
    case Matrix(_, _, _, ty, block) => BlockSize(ty).Some? && forall i: nat :: |block(i)| == TypeSize(ty).value
    case Vector(_, _, value) => |value| == 4
  }

  /** The tensor is not empty, its rows are whole blocks, and its size fits 64 bits. */
  ghost predicate SpecOk(utf8: Utf8, spec: Spec) {
    && SpecTyped(spec) && TextOk(utf8, spec.name)
    && match spec
       case Matrix(_, rows, cols, ty, _) =>
         && rows > 0 && cols > 0 && cols % BlockSize(ty).value == 0
         && rows * cols < WORD && rows * (cols / BlockSize(ty).value) * TypeSize(ty).value < WORD
       case Vector(_, len, _) => len > 0 && len * 4 < WORD
  }

  function PushedOf(spec: Spec): (p: Pushed)
    requires spec.Matrix? ==> BlockSize(spec.ty).Some?
    ensures p.name == spec.name
  {
    match spec
    case Matrix(name, rows, cols, ty, block) =>
      Pushed(name, [cols, rows], ty, Blocks(block, rows * (cols / BlockSize(ty).value)))
    case Vector(name, len, value) => Pushed(name, [len], 0, Blocks(_ => value, len))
  }

  lemma SmallDims(n: nat)
    requires n < WORD
    ensures Fits(n, 8)
  {
    EightBytes();
  }

  /** What the writers push for an acceptable tensor has the length its entry says. */
  lemma SpecPushed(utf8: Utf8, spec: Spec)
    requires SpecOk(utf8, spec)
    ensures PushedOk(utf8, PushedOf(spec))
  {
    hide EncodedLen, Fits, TextOk, Blocks;
    SmallFits(1);
    SmallFits(2);
    match spec
    case Matrix(name, rows, cols, ty, block) =>
      ProductAtLeast(rows, cols);
      ProductAtLeast(cols, rows);
      assert cols * rows == rows * cols;
      SmallDims(rows);
      SmallDims(cols);
      SmallFits(ty);
      BlocksLength(block, rows * (cols / BlockSize(ty).value), TypeSize(ty).value);
      RowsOfBlocks(name, rows, cols, ty, 0);
    case Vector(name, len, value) =>
      SmallDims(len);
      SmallFits(0);
      BlocksLength(_ => value, len, 4);
      VectorLength(name, len);
  }

  lemma VectorLength(name: Name, len: nat)
    requires len > 0 && len * 4 < WORD
    ensures EncodedLen(TensorInfo(name, [len], 0, 0)) == Ok(len * 4)
  {
    TwoDims(len, 1);
  }

  /** Push a matrix of blocks: its entry takes the offset the data has reached, its blocks follow the data. */
  method PushMatrix(tensors: seq<TensorInfo>, data: seq<byte>, ghost pushed: seq<Pushed>, name: Name, rows: nat,
                    cols: nat, ty: nat, block: nat -> seq<byte>)
    returns (tensors': seq<TensorInfo>, data': seq<byte>)
    requires tensors == Infos(pushed, 0) && data == Data(pushed) && BlockSize(ty).Some?
    ensures tensors' == tensors + [TensorInfo(name, [cols, rows], ty, |data|)]
    ensures data' == data + Blocks(block, rows * (cols / BlockSize(ty).value))
    ensures var p := PushedOf(Matrix(name, rows, cols, ty, block));
            tensors' == Infos(pushed + [p], 0) && data' == Data(pushed + [p])
    ensures forall utf8: Utf8 :: SpecOk(utf8, Matrix(name, rows, cols, ty, block)) ==>
              PushedOk(utf8, PushedOf(Matrix(name, rows, cols, ty, block)))
  {
    hide EncodedLen, Product, SpecOk, PushedOk;
    var n := rows * (cols / BlockSize(ty).value);
    tensors' := tensors + [TensorInfo(name, [cols, rows], ty, |data|)];
    data' := data;
    for i := 0 to n
      invariant data' == data + Blocks(block, i)
    {
      data' := data' + block(i);
    }
    ghost var spec := Matrix(name, rows, cols, ty, block);
    InfosAppend(pushed, PushedOf(spec), 0);
    forall utf8: Utf8 | SpecOk(utf8, spec)
      ensures PushedOk(utf8, PushedOf(spec))
    {
      SpecPushed(utf8, spec);
    }
  }

  /** Push a vector of 32-bit floats, all with the same bytes. */
  method PushVector(tensors: seq<TensorInfo>, data: seq<byte>, ghost pushed: seq<Pushed>, name: Name, len: nat,
                    value: seq<byte>)
    returns (tensors': seq<TensorInfo>, data': seq<byte>)
    requires tensors == Infos(pushed, 0) && data == Data(pushed)
    ensures tensors' == tensors + [TensorInfo(name, [len], 0, |data|)] && data' == data + Blocks(_ => value, len)
    ensures var p := PushedOf(Vector(name, len, value));
            tensors' == Infos(pushed + [p], 0) && data' == Data(pushed + [p])
    ensures forall utf8: Utf8 :: SpecOk(utf8, Vector(name, len, value)) ==>
              PushedOk(utf8, PushedOf(Vector(name, len, value)))
  {
    hide EncodedLen, SpecOk, PushedOk;
    tensors' := tensors + [TensorInfo(name, [len], 0, |data|)];
    data' := data;
    ghost var spec := Vector(name, len, value);
    ghost var block := PushedOf(spec).payload;
    for i := 0 to len
      invariant data' == data + Blocks(_ => value, i)
    {
      data' := data' + value;
    }
    InfosAppend(pushed, PushedOf(spec), 0);
    forall utf8: Utf8 | SpecOk(utf8, spec)
      ensures PushedOk(utf8, PushedOf(spec))
    {
      SpecPushed(utf8, spec);
    }
  }

  /** The file of some metadata and of the tensors pushed so far. */
  method WriteGguf(entries: seq<Entry>, tensors: seq<TensorInfo>, data: seq<byte>, ghost pushed: seq<Pushed>)
    returns (out: seq<byte>)
    requires tensors == Infos(pushed, 0) && data == Data(pushed)
    ensures out == EncodeGguf(entries, pushed)
  {
    hide WriteEntry, WriteTensor, LittleEndian, Infos, Data, AlignUp;
    ghost var head := WriteHeader(Header(3, entries, tensors));
    out := MAGIC + LittleEndian(3, 4) + LittleEndian(|tensors|, 8) + LittleEndian(|entries|, 8);
    assert entries[0..] == entries && tensors[0..] == tensors;
    for i := 0 to |entries|
      invariant head == out + WriteEntries(entries[i..]) + WriteTensors(tensors)
    {
      assert entries[i..][1..] == entries[i + 1..];
      out := out + WriteEntry(entries[i]);
    }
    assert WriteEntries(entries[|entries|..]) == [];
    for i := 0 to |tensors|
      invariant head == out + WriteTensors(tensors[i..])
    {
      assert tensors[i..][1..] == tensors[i + 1..];
      out := out + WriteTensor(tensors[i]);
    }
    assert WriteTensors(tensors[|tensors|..]) == [];
    out := PadToAlignment(out);
    out := out + data;
  }

  method PadToAlignment(head: seq<byte>) returns (out: seq<byte>)
    ensures out == head + Zeros(AlignUp(|head|) - |head|)
  {
    out := head;
    ghost var n := 0;
    while |out| % ALIGNMENT != 0
      invariant out == head + Zeros(n) && |head| + n <= AlignUp(|head|)
      decreases AlignUp(|head|) - |out|
    {
      out := out + [0];
      n := n + 1;
    }
  }

  // ----- writing and reading back -----

  function SpecNames(specs: seq<Spec>): (r: seq<Name>)
    ensures |r| == |specs|
  {
    seq(|specs|, i requires 0 <= i < |specs| => specs[i].name)
  }

  /** The pushes so far. */
  ghost predicate PushedFor(utf8: Utf8, specs: seq<Spec>, pushed: seq<Pushed>) {
    && |pushed| == |specs| && AllPushedOk(utf8, pushed)
    && forall i :: 0 <= i < |specs| ==> SpecOk(utf8, specs[i]) && pushed[i] == PushedOf(specs[i])
  }

  lemma PushedOne(utf8: Utf8, specs: seq<Spec>, pushed: seq<Pushed>, spec: Spec)
    requires PushedFor(utf8, specs, pushed) && SpecOk(utf8, spec)
    ensures PushedFor(utf8, specs + [spec], pushed + [PushedOf(spec)])
  {
    hide SpecOk, PushedOk;
    SpecHasType(utf8, spec);
    SpecPushed(utf8, spec);
    var all := pushed + [PushedOf(spec)];
    forall i | 0 <= i < |all|
      ensures PushedOk(utf8, all[i])
    {
    }
  }

  /** Push every tensor asked for, and write the file. */
  method WriteModel(ghost utf8: Utf8, entries: seq<Entry>, specs: seq<Spec>)
    returns (file: seq<byte>, ghost pushed: seq<Pushed>)
    requires forall i :: 0 <= i < |specs| ==> SpecOk(utf8, specs[i])
    ensures PushedFor(utf8, specs, pushed) && file == EncodeGguf(entries, pushed)
  {
    hide SpecOk, PushedOk, EncodeGguf, Infos, Data, AllPushedOk;
    var tensors: seq<TensorInfo>, data: seq<byte> := [], [];
    pushed := [];
    NothingPushed(utf8);
    for i := 0 to |specs|
      invariant tensors == Infos(pushed, 0) && data == Data(pushed) && PushedFor(utf8, specs[..i], pushed)
    {
      hide PushedFor;
      SpecHasType(utf8, specs[i]);
      PushedOne(utf8, specs[..i], pushed, specs[i]);
      assert specs[..i + 1] == specs[..i] + [specs[i]];
      match specs[i] {
        case Matrix(name, rows, cols, ty, block) =>
          tensors, data := PushMatrix(tensors, data, pushed, name, rows, cols, ty, block);
        case Vector(name, len, value) =>
          tensors, data := PushVector(tensors, data, pushed, name, len, value);
      }
      pushed := pushed + [PushedOf(specs[i])];
    }
    assert specs[..|specs|] == specs;
    file := WriteGguf(entries, tensors, data, pushed);
  }

  lemma NothingPushed(utf8: Utf8)
    ensures Infos([], 0) == [] && Data([]) == [] && PushedFor(utf8, [], [])
  {
  }

  lemma SpecHasType(utf8: Utf8, spec: Spec)
    requires SpecOk(utf8, spec)
    ensures spec.Matrix? ==> BlockSize(spec.ty).Some?
  {
  }

  /** Whatever tensors the writers are asked for, under names of their own: the file they write is parsed to every name,
      shape, type and data. */
  lemma WrittenModelIsRecovered(utf8: Utf8, entries: seq<Entry>, specs: seq<Spec>, pushed: seq<Pushed>)
    requires EntriesOk(utf8, entries) && Fresh(Keys(entries), {}) && Fresh(SpecNames(specs), {})
    requires PushedFor(utf8, specs, pushed) && |EncodeGguf(entries, pushed)| < WORD
    ensures var file := EncodeGguf(entries, pushed);
            var r := ParseFile(utf8, file, true);
            && r.Ok? && r.value.metadata == MapOf(entries) && |r.value.tensors| == |specs|
            && forall i :: 0 <= i < |specs| ==>
                 && (specs[i].Matrix? ==> BlockSize(specs[i].ty).Some?)
                 && var (t, p) := (r.value.tensors[i], PushedOf(specs[i]));
                    && t.name == p.name && t.dims == p.dims && t.ty == p.ty
                    && TensorData(r.value, file, p.name) == Ok(p.payload)
  {
    hide EncodeGguf, ParseFile, MapOf, SpecOk, TensorData, AllPushedOk, EntriesOk, Fresh, PushedOf;
    assert SpecNames(specs) == PushedNames(pushed) by {
      forall i | 0 <= i < |specs|
        ensures specs[i].name == pushed[i].name
      {
        SpecHasType(utf8, specs[i]);
        assert pushed[i] == PushedOf(specs[i]);
      }
    }
    forall i | 0 <= i < |specs|
      ensures specs[i].Matrix? ==> BlockSize(specs[i].ty).Some?
    {
      SpecHasType(utf8, specs[i]);
    }
    WrittenFileIsRecovered(utf8, entries, pushed);
  }
}
