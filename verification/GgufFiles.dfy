/** Whole GGUF files: header, tensor ranges, and what the repository's own writer produces. */
module GgufFiles {
  import opened Bits
  import opened Outcomes
  import opened LittleEndians
  import opened Ggufs

  /** "GGUF" in ASCII. */
  const MAGIC: seq<byte> := [71, 71, 85, 70]
  const ALIGNMENT: nat := 32

  datatype Gguf = Gguf(version: nat, metadata: map<Name, Value>, tensors: seq<TensorInfo>, dataOffset: nat,
                       fileLen: nat)

  /** A half-open range of file positions. */
  datatype Range = Range(start: nat, end: nat)

  // ----- header -----

  function WriteHeader(h: Header): seq<byte> {
    MAGIC + LittleEndian(h.version, 4) + LittleEndian(|h.tensors|, 8) + LittleEndian(|h.entries|, 8)
    + WriteEntries(h.entries) + WriteTensors(h.tensors)
  }

  ghost predicate HeaderOk(utf8: Utf8, h: Header) {
    && (h.version == 2 || h.version == 3) && Fits(|h.tensors|, 8) && Fits(|h.entries|, 8)
    && EntriesOk(utf8, h.entries) && Fresh(Keys(h.entries), {})
    && TensorsOk(utf8, h.tensors) && Fresh(Names(h.tensors), {})
  }

  function ParseCounted(utf8: Utf8, version: nat, s: seq<byte>): Parsed<Header> {
    var (tensorCount, s1) :- ParseNumber(s, 8);
    var (entryCount, s2) :- ParseNumber(s1, 8);
    var (entries, s3) :- ParseEntries(utf8, entryCount, s2, {});
    if tensorCount * 24 > |s3| then Err(Truncated)
    else
      var (tensors, rest) :- ParseTensors(utf8, tensorCount, s3, {});
      Ok((Header(version, entries, tensors), rest))
  }

  function ParseHeader(utf8: Utf8, s: seq<byte>): Parsed<Header> {
    if |s| < 4 then Err(Truncated)
    else if s[..4] != MAGIC then Err(BadMagic)
    else
      var (version, s1) :- ParseNumber(s[4..], 4);
      if version != 2 && version != 3 then Err(UnsupportedVersion(version)) else ParseCounted(utf8, version, s1)
  }

  lemma CountedParts(h: Header, rest: seq<byte>)
    ensures WriteHeader(h) + rest ==
            MAGIC + (LittleEndian(h.version, 4) + (LittleEndian(|h.tensors|, 8) + (LittleEndian(|h.entries|, 8) +
              (WriteEntries(h.entries) + (WriteTensors(h.tensors) + rest)))))
  {
    hide LittleEndian, WriteEntries, WriteTensors;
    var (a, b, c, d, e) := (LittleEndian(h.version, 4), LittleEndian(|h.tensors|, 8), LittleEndian(|h.entries|, 8),
                            WriteEntries(h.entries), WriteTensors(h.tensors));
    assert MAGIC + a + b + c + d + e + rest == MAGIC + (a + (b + (c + (d + (e + rest)))));
  }

  lemma CountedReads(utf8: Utf8, h: Header, rest: seq<byte>)
    requires HeaderOk(utf8, h)
    ensures ParseCounted(utf8, h.version, LittleEndian(|h.tensors|, 8) + (LittleEndian(|h.entries|, 8) +
              (WriteEntries(h.entries) + (WriteTensors(h.tensors) + rest)))) == Ok((h, rest))
  {
    hide ParseNumber, ParseEntries, ParseTensors, WriteEntries, WriteTensors, LittleEndian, Fits, EntriesOk, TensorsOk;
    var s3 := WriteTensors(h.tensors) + rest;
    var s2 := WriteEntries(h.entries) + s3;
    NumberReads(|h.tensors|, 8, LittleEndian(|h.entries|, 8) + s2);
    NumberReads(|h.entries|, 8, s2);
    EntriesRead(utf8, h.entries, s3, {});
    TensorsTakeBytes(h.tensors);
    TensorsRead(utf8, h.tensors, rest, {});
  }

  lemma CountedWas(utf8: Utf8, version: nat, s: seq<byte>)
    requires ParseCounted(utf8, version, s).Ok? && (version == 2 || version == 3)
    ensures var (h, rest) := ParseCounted(utf8, version, s).value;
            && HeaderOk(utf8, h) && h.version == version
            && s == LittleEndian(|h.tensors|, 8) + (LittleEndian(|h.entries|, 8) +
                      (WriteEntries(h.entries) + (WriteTensors(h.tensors) + rest)))
  {
    hide ParseNumber, ParseEntries, ParseTensors, WriteEntries, WriteTensors, LittleEndian, Fits, EntriesOk, TensorsOk;
    NumberWas(s, 8);
    var (n, s1) := ParseNumber(s, 8).value;
    NumberWas(s1, 8);
    var (m, s2) := ParseNumber(s1, 8).value;
    EntriesWere(utf8, m, s2, {});
    TensorsWere(utf8, n, ParseEntries(utf8, m, s2, {}).value.1, {});
  }

  /** Parsing a header is the exact inverse of writing it: it accepts what the writer makes of a well-formed header with
      distinct names, and nothing else. */
  lemma ParsedIffWritten(utf8: Utf8, s: seq<byte>, h: Header, rest: seq<byte>)
    ensures ParseHeader(utf8, s) == Ok((h, rest)) <==> HeaderOk(utf8, h) && s == WriteHeader(h) + rest
  {
    hide ParseNumber, ParseCounted, WriteEntries, WriteTensors, LittleEndian, Fits, HeaderOk, WriteHeader;
    CountedParts(h, rest);
    if HeaderOk(utf8, h) && s == WriteHeader(h) + rest {
      HeaderReads(utf8, h, rest);
    }
    if ParseHeader(utf8, s) == Ok((h, rest)) {
      var s1 := ParseNumber(s[4..], 4).value.1;
      NumberWas(s[4..], 4);
      CountedWas(utf8, ParseNumber(s[4..], 4).value.0, s1);
      assert s == MAGIC + s[4..];
    }
  }

  lemma HeaderReads(utf8: Utf8, h: Header, rest: seq<byte>)
    requires HeaderOk(utf8, h)
    ensures ParseHeader(utf8, WriteHeader(h) + rest) == Ok((h, rest))
  {
    hide ParseNumber, ParseCounted, WriteEntries, WriteTensors, LittleEndian, Fits, WriteHeader;
    CountedParts(h, rest);
    var s1 := LittleEndian(|h.tensors|, 8) + (LittleEndian(|h.entries|, 8) +
                (WriteEntries(h.entries) + (WriteTensors(h.tensors) + rest)));
    var s := MAGIC + (LittleEndian(h.version, 4) + s1);
    assert s[..4] == MAGIC && s[4..] == LittleEndian(h.version, 4) + s1;
    SmallFits(h.version);
    NumberReads(h.version, 4, s1);
    CountedReads(utf8, h, rest);
  }

  // ----- tensor ranges -----

  function TypeSize(ty: nat): Option<nat> {
    match ty
    case 0 => Some(4)
    case 1 => Some(2)
    case 2 => Some(18)
    case 3 => Some(20)
    case 6 => Some(22)
    case 7 => Some(24)
    case 8 => Some(34)
    case 9 => Some(40)
    case 10 => Some(84)
    case 11 => Some(110)
    case 12 => Some(144)
    case 13 => Some(176)
    case 14 => Some(210)
    case 15 => Some(292)
    case _ => None
  }

  function BlockSize(ty: nat): (b: Option<nat>)
    ensures b.Some? ==> b.value > 0
    ensures b.Some? <==> TypeSize(ty).Some?
  {
    match ty
    case 0 => Some(1)
    case 1 => Some(1)
    case 2 => Some(32)
    case 3 => Some(32)
    case 6 => Some(32)
    case 7 => Some(32)
    case 8 => Some(32)
    case 9 => Some(32)
    case 10 => Some(256)
    case 11 => Some(256)
    case 12 => Some(256)
    case 13 => Some(256)
    case 14 => Some(256)
    case 15 => Some(256)
    case _ => None
  }

  function Product(dims: seq<nat>): nat {
    if dims == [] then 1 else Product(dims[..|dims| - 1]) * dims[|dims| - 1]
  }

  function ElementCount(dims: seq<nat>): (r: Result<nat, GgufError>)
    ensures r.Ok? ==> r.value > 0
  {
    if dims == [] || Product(dims) == 0 || Product(dims) >= WORD then Err(InvalidTensorShape) else Ok(Product(dims))
  }

  function EncodedLen(t: TensorInfo): (r: Result<nat, GgufError>)
    ensures r.Ok? ==> r.value > 0
  {
    var n :- ElementCount(t.dims);
    if TypeSize(t.ty).None? then Err(UnsupportedTensorType(t.ty))
    else
      var (size, block) := (TypeSize(t.ty).value, BlockSize(t.ty).value);
      if n % block != 0 then Err(InvalidTensorShape)
      else
        WholeBlocks(n, block, size);
        if n / block * size >= WORD then Err(InvalidTensorShape) else Ok(n / block * size)
  }

  lemma WholeBlocks(n: nat, block: nat, size: nat)
    requires n > 0 && block > 0 && n % block == 0 && size > 0
    ensures n / block > 0 && n / block * size > 0
  {
    assert n == block * (n / block) + n % block;
    ProductAtLeast(n / block, size);
  }

  function RangeOf(dataOffset: nat, fileLen: nat, t: TensorInfo): (r: Result<Range, GgufError>)
    ensures r.Ok? ==> dataOffset <= r.value.start < r.value.end <= fileLen
  {
    var len :- EncodedLen(t);
    var start := dataOffset + t.offset;
    if start >= WORD || start + len >= WORD then Err(InvalidTensorOffset)
    else if start + len > fileLen then Err(Truncated)
    else Ok(Range(start, start + len))
  }

  function Ranges(dataOffset: nat, fileLen: nat, tensors: seq<TensorInfo>): (r: Result<seq<Range>, GgufError>)
    ensures r.Ok? ==> |r.value| == |tensors|
    ensures r.Ok? ==> forall i :: 0 <= i < |tensors| ==> RangeOf(dataOffset, fileLen, tensors[i]) == Ok(r.value[i])
    decreases |tensors|
  {
    if tensors == [] then Ok([])
    else
      var first :- RangeOf(dataOffset, fileLen, tensors[0]);
      var rest :- Ranges(dataOffset, fileLen, tensors[1..]);
      Ok([first] + rest)
  }

  /** Insert before the first range that does not start earlier. */
  function Insert(r: Range, rs: seq<Range>): seq<Range> {
    if rs == [] || r.start <= rs[0].start then [r] + rs else [rs[0]] + Insert(r, rs[1..])
  }

  /** The ranges by their start, equal starts in their old order. */
  function SortByStart(rs: seq<Range>): seq<Range> {
    if rs == [] then [] else Insert(rs[0], SortByStart(rs[1..]))
  }

  predicate EndsBeforeNext(rs: seq<Range>) {
    forall i :: 0 < i < |rs| ==> rs[i - 1].end <= rs[i].start
  }

  predicate Apart(a: Range, b: Range) {
    a.end <= b.start || b.end <= a.start
  }

  /** No two ranges share a byte. */
  ghost predicate Disjoint(rs: seq<Range>) {
    forall i, j :: 0 <= i < j < |rs| ==> Apart(rs[i], rs[j])
  }

  ghost predicate NotEmpty(rs: seq<Range>) {
    forall i :: 0 <= i < |rs| ==> rs[i].start < rs[i].end
  }

  ghost predicate ApartFromAll(r: Range, rs: seq<Range>) {
    forall i :: 0 <= i < |rs| ==> Apart(r, rs[i])
  }

  ghost predicate Sorted(rs: seq<Range>) {
    forall i, j :: 0 <= i < j < |rs| ==> rs[i].start <= rs[j].start
  }

  lemma DisjointHead(rs: seq<Range>)
    requires rs != []
    ensures Disjoint(rs) <==> ApartFromAll(rs[0], rs[1..]) && Disjoint(rs[1..])
  {
    if Disjoint(rs) {
      forall i | 0 <= i < |rs[1..]|
        ensures Apart(rs[0], rs[1..][i])
      {
        assert Apart(rs[0], rs[i + 1]);
      }
    }
    if ApartFromAll(rs[0], rs[1..]) && Disjoint(rs[1..]) {
      forall i, j | 0 <= i < j < |rs|
        ensures Apart(rs[i], rs[j])
      {
        assert rs[j] == rs[1..][j - 1];
        if i > 0 {
          assert Apart(rs[1..][i - 1], rs[1..][j - 1]);
        }
      }
    }
  }

  lemma ApartHead(x: Range, rs: seq<Range>)
    requires rs != []
    ensures ApartFromAll(x, rs) <==> Apart(x, rs[0]) && ApartFromAll(x, rs[1..])
  {
    if Apart(x, rs[0]) && ApartFromAll(x, rs[1..]) {
      forall i | 0 <= i < |rs|
        ensures Apart(x, rs[i])
      {
        assert i > 0 ==> rs[i] == rs[1..][i - 1];
      }
    }
    if ApartFromAll(x, rs) {
      forall i | 0 <= i < |rs[1..]|
        ensures Apart(x, rs[1..][i])
      {
        assert Apart(x, rs[i + 1]);
      }
    }
  }

  lemma {:induction false} InsertedApart(x: Range, r: Range, rs: seq<Range>)
    ensures ApartFromAll(x, Insert(r, rs)) <==> Apart(x, r) && ApartFromAll(x, rs)
    decreases |rs|
  {
    hide ApartFromAll, Apart;
    var all := Insert(r, rs);
    ApartHead(x, all);
    if rs == [] || r.start <= rs[0].start {
      assert all[1..] == rs;
    } else {
      assert all[1..] == Insert(r, rs[1..]);
      InsertedApart(x, r, rs[1..]);
      ApartHead(x, rs);
    }
  }

  lemma {:induction false} InsertedDisjoint(r: Range, rs: seq<Range>)
    ensures Disjoint(Insert(r, rs)) <==> ApartFromAll(r, rs) && Disjoint(rs)
    decreases |rs|
  {
    hide ApartFromAll, Disjoint;
    var all := Insert(r, rs);
    DisjointHead(all);
    if rs == [] || r.start <= rs[0].start {
      assert all[1..] == rs;
    } else {
      assert all[1..] == Insert(r, rs[1..]);
      InsertedDisjoint(r, rs[1..]);
      InsertedApart(rs[0], r, rs[1..]);
      DisjointHead(rs);
      ApartHead(r, rs);
    }
  }

  lemma {:induction false} InsertKeepsSorted(r: Range, rs: seq<Range>)
    requires Sorted(rs) && NotEmpty(rs) && r.start < r.end
    ensures Sorted(Insert(r, rs)) && NotEmpty(Insert(r, rs))
    ensures rs != [] ==> Insert(r, rs)[0].start == if r.start <= rs[0].start then r.start else rs[0].start
    decreases |rs|
  {
    if rs != [] && r.start > rs[0].start {
      InsertKeepsSorted(r, rs[1..]);
      var tail := Insert(r, rs[1..]);
      assert Sorted([rs[0]] + tail) by {
        assert tail[0].start >= rs[0].start;
        assert forall j :: 0 <= j < |tail| ==> tail[0].start <= tail[j].start;
      }
    }
  }

  lemma {:induction false} SortedIsSorted(rs: seq<Range>)
    requires NotEmpty(rs)
    ensures Sorted(SortByStart(rs)) && NotEmpty(SortByStart(rs))
    ensures Disjoint(SortByStart(rs)) <==> Disjoint(rs)
    decreases |rs|
  {
    if rs != [] {
      SortedIsSorted(rs[1..]);
      InsertKeepsSorted(rs[0], SortByStart(rs[1..]));
      InsertedDisjoint(rs[0], SortByStart(rs[1..]));
      SortedApart(rs[0], rs[1..]);
      DisjointHead(rs);
    }
  }

  lemma {:induction false} SortedApart(x: Range, rs: seq<Range>)
    ensures ApartFromAll(x, SortByStart(rs)) <==> ApartFromAll(x, rs)
    decreases |rs|
  {
    hide ApartFromAll, Apart;
    if rs != [] {
      SortedApart(x, rs[1..]);
      InsertedApart(x, rs[0], SortByStart(rs[1..]));
      ApartHead(x, rs);
    } else {
      assert SortByStart(rs) == rs;
    }
  }

  /** In sorted order it is enough to look at neighbours. */
  lemma NeighboursSuffice(rs: seq<Range>)
    requires Sorted(rs) && NotEmpty(rs)
    ensures EndsBeforeNext(rs) <==> Disjoint(rs)
  {
    if EndsBeforeNext(rs) {
      forall i, j | 0 <= i < j < |rs|
        ensures Apart(rs[i], rs[j])
      {
        assert rs[i + 1 - 1].end <= rs[i + 1].start;
        assert rs[i + 1].start <= rs[j].start;
      }
    }
    if Disjoint(rs) {
      forall i | 0 < i < |rs|
        ensures rs[i - 1].end <= rs[i].start
      {
        assert Apart(rs[i - 1], rs[i]);
      }
    }
  }

  /** The check on neighbours of the sorted ranges accepts exactly the ranges that are pairwise disjoint. */
  lemma LayoutCheckIsDisjointness(rs: seq<Range>)
    requires NotEmpty(rs)
    ensures EndsBeforeNext(SortByStart(rs)) <==> Disjoint(rs)
  {
    SortedIsSorted(rs);
    NeighboursSuffice(SortByStart(rs));
  }

  function CheckLayout(dataOffset: nat, fileLen: nat, tensors: seq<TensorInfo>): Result<(), GgufError> {
    var ranges :- Ranges(dataOffset, fileLen, tensors);
    if EndsBeforeNext(SortByStart(ranges)) then Ok(()) else Err(InvalidTensorOffset)
  }

  // ----- files -----

  function AlignUp(x: nat): (r: nat)
    ensures x <= r < x + ALIGNMENT && r % ALIGNMENT == 0
  {
    (x + ALIGNMENT - 1) / ALIGNMENT * ALIGNMENT
  }

  function MapOf(entries: seq<Entry>): map<Name, Value> {
    if entries == [] then map[] else MapOf(entries[..|entries| - 1])[Last(entries).key := Last(entries).value]
  }

  function Last(entries: seq<Entry>): Entry
    requires entries != []
  {
    entries[|entries| - 1]
  }

  /** Where the data starts and whether the tensors fit, once the header ends at pos. */
  function Placed(h: Header, pos: nat, fileLen: nat, withData: bool): Result<Gguf, GgufError> {
    if pos + ALIGNMENT - 1 >= WORD then Err(Truncated)
    else
      var dataOffset := AlignUp(pos);
      if withData && dataOffset > fileLen then Err(Truncated)
      else
        var _ :- if withData then CheckLayout(dataOffset, fileLen, h.tensors) else Ok(());
        Ok(Gguf(h.version, MapOf(h.entries), h.tensors, dataOffset, if withData then fileLen else dataOffset))
  }

  function Position(bytes: seq<byte>, rest: seq<byte>): nat {
    if |rest| <= |bytes| then |bytes| - |rest| else 0
  }

  /** Parse a file, or only what comes before its tensor data. */
  function ParseFile(utf8: Utf8, bytes: seq<byte>, withData: bool): Result<Gguf, GgufError> {
    var (h, rest) :- ParseHeader(utf8, bytes);
    Placed(h, Position(bytes, rest), |bytes|, withData)
  }

  function Find(tensors: seq<TensorInfo>, name: Name): Result<TensorInfo, GgufError>
    decreases |tensors|
  {
    if tensors == [] then Err(TensorNotFound)
    else if tensors[0].name != name then Find(tensors[1..], name)
    else if exists i :: 0 < i < |tensors| && tensors[i].name == name then Err(DuplicateTensorName)
    else Ok(tensors[0])
  }

  function TensorData(g: Gguf, bytes: seq<byte>, name: Name): Result<seq<byte>, GgufError> {
    var tensor :- Find(g.tensors, name);
    var range :- RangeOf(g.dataOffset, g.fileLen, tensor);
    if range.end > |bytes| then Err(Truncated) else Ok(bytes[range.start..range.end])
  }

  // ----- what an accepted file guarantees -----

  ghost predicate Distinct(names: seq<Name>) {
    forall i, j :: 0 <= i < j < |names| ==> names[i] != names[j]
  }

  lemma {:induction false} FreshIsDistinct(names: seq<Name>, seen: set<Name>)
    requires Fresh(names, seen)
    ensures Distinct(names) && forall i :: 0 <= i < |names| ==> names[i] !in seen
    decreases |names|
  {
    if names != [] {
      FreshIsDistinct(names[1..], seen + {names[0]});
      forall i | 0 <= i < |names|
        ensures names[i] !in seen && (i > 0 ==> names[i] != names[0])
      {
        assert i > 0 ==> names[i] == names[1..][i - 1];
      }
      forall i, j | 0 <= i < j < |names|
        ensures names[i] != names[j]
      {
        assert i > 0 ==> names[i] == names[1..][i - 1] && names[j] == names[1..][j - 1];
      }
    }
  }

  lemma {:induction false} FindsTensor(tensors: seq<TensorInfo>, i: nat)
    requires Distinct(Names(tensors)) && i < |tensors|
    ensures Find(tensors, tensors[i].name) == Ok(tensors[i])
    decreases |tensors|
  {
    var names := Names(tensors);
    if i > 0 {
      assert names[0] != names[i];
      var rest := tensors[1..];
      assert Distinct(Names(rest)) by {
        assert Names(rest) == names[1..];
      }
      FindsTensor(rest, i - 1);
    } else {
      forall k | 0 < k < |tensors|
        ensures tensors[k].name != tensors[0].name
      {
        assert names[0] != names[k];
      }
    }
  }

  /** In an accepted file every tensor has its own bytes, inside the file and shared with no other tensor. */
  lemma AcceptedTensorsHaveTheirBytes(utf8: Utf8, bytes: seq<byte>, g: Gguf)
    requires ParseFile(utf8, bytes, true) == Ok(g)
    ensures g.fileLen == |bytes| && Distinct(Names(g.tensors))
    ensures forall i :: 0 <= i < |g.tensors| ==>
              var range := RangeOf(g.dataOffset, g.fileLen, g.tensors[i]);
              range.Ok? && TensorData(g, bytes, g.tensors[i].name) == Ok(bytes[range.value.start..range.value.end])
    ensures forall i, j :: 0 <= i < j < |g.tensors| ==>
              && RangeOf(g.dataOffset, g.fileLen, g.tensors[i]).Ok?
              && RangeOf(g.dataOffset, g.fileLen, g.tensors[j]).Ok?
              && Apart(RangeOf(g.dataOffset, g.fileLen, g.tensors[i]).value,
                       RangeOf(g.dataOffset, g.fileLen, g.tensors[j]).value)
  {
    hide ParseHeader, RangeOf, SortByStart, Apart, WriteHeader, HeaderOk;
    var (h, rest) := ParseHeader(utf8, bytes).value;
    ParsedIffWritten(utf8, bytes, h, rest);
    HeaderNames(utf8, h);
    var ranges := Ranges(g.dataOffset, g.fileLen, g.tensors).value;
    LayoutCheckIsDisjointness(ranges);
    forall i | 0 <= i < |g.tensors|
      ensures TensorData(g, bytes, g.tensors[i].name) == Ok(bytes[ranges[i].start..ranges[i].end])
    {
      FindsTensor(g.tensors, i);
      assert RangeOf(g.dataOffset, g.fileLen, g.tensors[i]) == Ok(ranges[i]);
    }
  }

  lemma HeaderNames(utf8: Utf8, h: Header)
    requires HeaderOk(utf8, h)
    ensures Distinct(Names(h.tensors))
  {
    FreshIsDistinct(Names(h.tensors), {});
  }

  // ----- the repository's writer -----

  /** A tensor with the bytes of its data. */
  datatype Pushed = Pushed(name: Name, dims: seq<nat>, ty: nat, payload: seq<byte>)

  /** Tensor entries, each at the offset the data had reached when it was pushed. */
  function Infos(pushed: seq<Pushed>, offset: nat): (r: seq<TensorInfo>)
    ensures |r| == |pushed|
  {
    if pushed == [] then []
    else
      [TensorInfo(pushed[0].name, pushed[0].dims, pushed[0].ty, offset)]
      + Infos(pushed[1..], offset + |pushed[0].payload|)
  }

  function Data(pushed: seq<Pushed>): seq<byte> {
    if pushed == [] then [] else pushed[0].payload + Data(pushed[1..])
  }

  function EncodeGguf(entries: seq<Entry>, pushed: seq<Pushed>): seq<byte> {
    var head := WriteHeader(Header(3, entries, Infos(pushed, 0)));
    head + Zeros(AlignUp(|head|) - |head|) + Data(pushed)
  }

  ghost predicate PushedOk(utf8: Utf8, p: Pushed) {
    && TextOk(utf8, p.name) && Fits(|p.dims|, 4) && DimsOk(p.dims) && Fits(p.ty, 4)
    && EncodedLen(TensorInfo(p.name, p.dims, p.ty, 0)) == Ok(|p.payload|)
  }

  ghost predicate AllPushedOk(utf8: Utf8, pushed: seq<Pushed>) {
    forall i :: 0 <= i < |pushed| ==> PushedOk(utf8, pushed[i])
  }

  function PushedNames(pushed: seq<Pushed>): (r: seq<Name>)
    ensures |r| == |pushed|
  {
    seq(|pushed|, i requires 0 <= i < |pushed| => pushed[i].name)
  }

  lemma InfosHead(pushed: seq<Pushed>, offset: nat)
    requires pushed != []
    ensures Data(pushed) == pushed[0].payload + Data(pushed[1..])
    ensures Infos(pushed, offset) ==
            [TensorInfo(pushed[0].name, pushed[0].dims, pushed[0].ty, offset)]
            + Infos(pushed[1..], offset + |pushed[0].payload|)
  {
  }

  lemma {:induction false} InfosOk(utf8: Utf8, pushed: seq<Pushed>, offset: nat)
    requires AllPushedOk(utf8, pushed) && offset + |Data(pushed)| < WORD
    ensures TensorsOk(utf8, Infos(pushed, offset)) && Names(Infos(pushed, offset)) == PushedNames(pushed)
    decreases |pushed|
  {
    hide PushedOk, TensorOk, Infos, Data;
    if pushed == [] {
      NoInfos(offset);
    } else {
      var next := offset + |pushed[0].payload|;
      InfosHead(pushed, offset);
      InfosOk(utf8, pushed[1..], next);
      PushedEntryOk(utf8, pushed[0], offset);
      var (first, rest) := (TensorInfo(pushed[0].name, pushed[0].dims, pushed[0].ty, offset), Infos(pushed[1..], next));
      assert Names([first] + rest) == [pushed[0].name] + Names(rest);
      assert PushedNames(pushed) == [pushed[0].name] + PushedNames(pushed[1..]);
    }
  }

  lemma NoInfos(offset: nat)
    ensures Infos([], offset) == []
  {
  }

  lemma PushedEntryOk(utf8: Utf8, p: Pushed, offset: nat)
    requires PushedOk(utf8, p) && offset < WORD
    ensures TensorOk(utf8, TensorInfo(p.name, p.dims, p.ty, offset))
  {
    hide TextOk, DimsOk, EncodedLen;
    EightBytes();
  }

  /** The pushed tensors lie one behind the other. */
  lemma {:induction false} InfosAreDisjoint(utf8: Utf8, pushed: seq<Pushed>, dataOffset: nat, offset: nat, fileLen: nat)
    requires AllPushedOk(utf8, pushed) && dataOffset + offset + |Data(pushed)| <= fileLen < WORD
    ensures var ranges := Ranges(dataOffset, fileLen, Infos(pushed, offset));
            && ranges.Ok? && Disjoint(ranges.value) && NotEmpty(ranges.value)
            && forall i :: 0 <= i < |ranges.value| ==> dataOffset + offset <= ranges.value[i].start
    decreases |pushed|
  {
    hide EncodedLen, TextOk, DimsOk;
    if pushed != [] {
      var next := offset + |pushed[0].payload|;
      InfosAreDisjoint(utf8, pushed[1..], dataOffset, next, fileLen);
      assert PushedOk(utf8, pushed[0]);
      LenIgnoresOffset(pushed[0], offset);
      var ranges := Ranges(dataOffset, fileLen, Infos(pushed, offset)).value;
      assert ranges[1..] == Ranges(dataOffset, fileLen, Infos(pushed[1..], next)).value;
      DisjointHead(ranges);
    }
  }

  lemma LenIgnoresOffset(p: Pushed, offset: nat)
    ensures EncodedLen(TensorInfo(p.name, p.dims, p.ty, offset)) == EncodedLen(TensorInfo(p.name, p.dims, p.ty, 0))
  {
  }

  lemma {:induction false} PayloadAt(pushed: seq<Pushed>, offset: nat, i: nat)
    requires i < |pushed|
    ensures var t, n := Infos(pushed, offset)[i], |pushed[i].payload|;
            && t == TensorInfo(pushed[i].name, pushed[i].dims, pushed[i].ty, t.offset)
            && offset <= t.offset && t.offset - offset + n <= |Data(pushed)|
            && Data(pushed)[t.offset - offset..t.offset - offset + n] == pushed[i].payload
    decreases |pushed|
  {
    InfosHead(pushed, offset);
    hide Infos, Data;
    if i > 0 {
      var n, first := |pushed[i].payload|, pushed[0].payload;
      PayloadAt(pushed[1..], offset + |first|, i - 1);
      var t := Infos(pushed[1..], offset + |first|)[i - 1];
      PartOfRest(first, Data(pushed[1..]), t.offset - offset - |first|, n);
    }
  }

  lemma PartOfRest(first: seq<byte>, rest: seq<byte>, a: nat, n: nat)
    requires a + n <= |rest|
    ensures (first + rest)[|first| + a..|first| + a + n] == rest[a..a + n]
  {
  }

  /** What the writer can be given: well-formed entries and tensors, each with names of their own. */
  ghost predicate Writable(utf8: Utf8, entries: seq<Entry>, pushed: seq<Pushed>) {
    && EntriesOk(utf8, entries) && Fresh(Keys(entries), {})
    && AllPushedOk(utf8, pushed) && Fresh(PushedNames(pushed), {})
    && |EncodeGguf(entries, pushed)| < WORD
  }

  lemma {:induction false} EntriesTakeBytes(entries: seq<Entry>)
    ensures |WriteEntries(entries)| >= |entries|
  {
    hide WriteValue;
    if entries != [] {
      EntriesTakeBytes(entries[1..]);
    }
  }

  lemma WrittenHeaderOk(utf8: Utf8, entries: seq<Entry>, pushed: seq<Pushed>)
    requires Writable(utf8, entries, pushed)
    ensures HeaderOk(utf8, Header(3, entries, Infos(pushed, 0)))
  {
    hide EntriesOk, AllPushedOk, Fresh, WriteEntries, WriteTensors, LittleEndian;
    var infos := Infos(pushed, 0);
    InfosOk(utf8, pushed, 0);
    TensorsTakeBytes(infos);
    EntriesTakeBytes(entries);
    EightBytes();
  }

  /** Whatever tensors are pushed, parsing the written file recovers every name, shape, type and data. */
  lemma WrittenFileIsRecovered(utf8: Utf8, entries: seq<Entry>, pushed: seq<Pushed>)
    requires Writable(utf8, entries, pushed)
    ensures var file := EncodeGguf(entries, pushed);
            var r := ParseFile(utf8, file, true);
            && r.Ok? && r.value.version == 3 && r.value.metadata == MapOf(entries) && |r.value.tensors| == |pushed|
            && forall i :: 0 <= i < |pushed| ==>
                 var (t, p) := (r.value.tensors[i], pushed[i]);
                 && t.name == p.name && t.dims == p.dims && t.ty == p.ty
                 && TensorData(r.value, file, p.name) == Ok(p.payload)
  {
    hide Writable, ParseFile, EncodeGguf, TensorData, Infos, MapOf;
    var file := EncodeGguf(entries, pushed);
    WrittenFileParses(utf8, entries, pushed);
    var g := ParseFile(utf8, file, true).value;
    forall i | 0 <= i < |pushed|
      ensures g.tensors[i].name == pushed[i].name && g.tensors[i].dims == pushed[i].dims
      ensures g.tensors[i].ty == pushed[i].ty
      ensures TensorData(g, file, pushed[i].name) == Ok(pushed[i].payload)
    {
      WrittenTensor(utf8, entries, pushed, i);
    }
  }

  lemma WrittenParts(entries: seq<Entry>, pushed: seq<Pushed>)
    ensures var head := WriteHeader(Header(3, entries, Infos(pushed, 0)));
            var file := EncodeGguf(entries, pushed);
            && |file| == AlignUp(|head|) + |Data(pushed)|
            && file == head + (Zeros(AlignUp(|head|) - |head|) + Data(pushed))
            && file[AlignUp(|head|)..] == Data(pushed)
  {
    hide WriteHeader, Infos, Data, AlignUp;
  }

  lemma WrittenFileParses(utf8: Utf8, entries: seq<Entry>, pushed: seq<Pushed>)
    requires Writable(utf8, entries, pushed)
    ensures var (file, infos) := (EncodeGguf(entries, pushed), Infos(pushed, 0));
            ParseFile(utf8, file, true) ==
            Ok(Gguf(3, MapOf(entries), infos, AlignUp(|WriteHeader(Header(3, entries, infos))|), |file|))
  {
    hide WriteHeader, ParseHeader, AllPushedOk, EntriesOk, Fresh, Infos, Data, MapOf, SortByStart, HeaderOk, EncodeGguf;
    hide Ranges, Disjoint;
    var h := Header(3, entries, Infos(pushed, 0));
    var head, file := WriteHeader(h), EncodeGguf(entries, pushed);
    WrittenParts(entries, pushed);
    WrittenHeaderOk(utf8, entries, pushed);
    ParsedIffWritten(utf8, file, h, Zeros(AlignUp(|head|) - |head|) + Data(pushed));
    InfosAreDisjoint(utf8, pushed, AlignUp(|head|), 0, |file|);
    LayoutCheckIsDisjointness(Ranges(AlignUp(|head|), |file|, h.tensors).value);
    RoomForPadding(|head|, |file|);
  }

  lemma RoomForPadding(n: nat, fileLen: nat)
    requires AlignUp(n) <= fileLen < WORD
    ensures n + ALIGNMENT - 1 < WORD
  {
  }

  lemma WrittenTensor(utf8: Utf8, entries: seq<Entry>, pushed: seq<Pushed>, i: nat)
    requires Writable(utf8, entries, pushed) && i < |pushed|
    ensures var file := EncodeGguf(entries, pushed);
            var r := ParseFile(utf8, file, true);
            && r.Ok? && |r.value.tensors| == |pushed|
            && r.value.tensors[i] == TensorInfo(pushed[i].name, pushed[i].dims, pushed[i].ty, r.value.tensors[i].offset)
            && TensorData(r.value, file, pushed[i].name) == Ok(pushed[i].payload)
  {
    hide WriteHeader, ParseFile, EntriesOk, Fresh, Infos, Data, MapOf, EncodeGguf, EncodedLen, TensorData, AlignUp;
    var infos, file := Infos(pushed, 0), EncodeGguf(entries, pushed);
    var start := AlignUp(|WriteHeader(Header(3, entries, infos))|);
    WrittenFileParses(utf8, entries, pushed);
    WrittenParts(entries, pushed);
    PayloadAt(pushed, 0, i);
    var g := ParseFile(utf8, file, true).value;
    AcceptedTensorsHaveTheirBytes(utf8, file, g);
    assert PushedOk(utf8, pushed[i]);
    LenIgnoresOffset(pushed[i], infos[i].offset);
    var (offset, n) := (infos[i].offset, |pushed[i].payload|);
    SliceFrom(file, start, offset, n);
    assert RangeOf(start, |file|, infos[i]) == Ok(Range(start + offset, start + offset + n));
  }

  lemma SliceFrom(s: seq<byte>, start: nat, offset: nat, n: nat)
    requires start + offset + n <= |s|
    ensures s[start + offset..start + offset + n] == s[start..][offset..offset + n]
  {
  }

  // ----- the sizes the writers give their data -----

  lemma TwoDims(cols: nat, rows: nat)
    ensures Product([cols, rows]) == cols * rows
    ensures Product([cols]) == cols
  {
    assert [cols, rows][..1] == [cols] && [cols][..0] == [];
    assert Product([]) == 1 && Product([cols]) == 1 * cols;
  }

  /** Rows of whole blocks are as many bytes as the parser expects, for 32-bit floats and for every block type. */
  lemma RowsOfBlocks(name: Name, rows: nat, cols: nat, ty: nat, offset: nat)
    requires BlockSize(ty).Some? && rows > 0 && cols > 0 && cols % BlockSize(ty).value == 0
    requires rows * cols < WORD && rows * (cols / BlockSize(ty).value) * TypeSize(ty).value < WORD
    ensures EncodedLen(TensorInfo(name, [cols, rows], ty, offset)) ==
            Ok(rows * (cols / BlockSize(ty).value) * TypeSize(ty).value)
  {
    hide Product;
    var block := BlockSize(ty).value;
    TwoDims(cols, rows);
    BlocksInRows(rows, cols, block);
  }

  lemma BlocksInRows(rows: nat, cols: nat, block: nat)
    requires rows > 0 && cols > 0 && block > 0 && cols % block == 0
    ensures cols * rows > 0 && cols * rows == rows * cols
    ensures (cols * rows) % block == 0 && cols * rows / block == rows * (cols / block)
  {
    var q := cols / block;
    assert cols == block * q + cols % block;
    assert cols * rows == rows * q * block by {
      assert cols == q * block;
      Associate(rows, q, block);
    }
    QuotientUnique(cols * rows, block, rows * q, 0);
    ProductAtLeast(cols, rows);
  }
}
