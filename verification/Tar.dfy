/**
 Reading the update archive: the scan over 512-byte headers, their octal fields and checksum, and the
 ustar printer that the scan inverts. Text is kept as bytes.
 */
module Tar {
  import JsStrings
  import Splitting

  type byte = b: int | 0 <= b < 256

  const BLOCK := 512
  const NAME_END := 100
  const SIZE := 124
  const SIZE_END := 136
  const CHECKSUM := 148
  const CHECKSUM_END := 156
  const TYPE := 156
  const PREFIX := 345
  const PREFIX_END := 500
  const MAX_BINARY := 512 * 1024 * 1024

  const SPACE: byte := 0x20
  const ZERO: byte := 0x30
  const SLASH: byte := 0x2f

  datatype Error =
    | BadLength | BadChecksumField | BadChecksum | BadSizeField | Truncated | BadBinarySize | NotFound

  datatype Result<+T> = Ok(value: T) | Err(error: Error)

  /** What the scan takes from a header. */
  datatype Entry = Entry(path: seq<byte>, size: nat, regular: bool)

  // ----- fields

  function UpToNul(field: seq<byte>): seq<byte> {
    if field == [] || field[0] == 0 then [] else [field[0]] + UpToNul(field[1..])
  }

  predicate White1(a: byte) {
    9 <= a <= 13 || a == SPACE
  }

  predicate White2(a: byte, b: byte) {
    a == 0xC2 && b == 0xA0
  }

  predicate White3(a: byte, b: byte, c: byte) {
    || (a == 0xE1 && b == 0x9A && c == 0x80)
    || (a == 0xE2 && b == 0x80 && (0x80 <= c <= 0x8A || c == 0xA8 || c == 0xA9 || c == 0xAF))
    || (a == 0xE2 && b == 0x81 && c == 0x9F)
    || (a == 0xE3 && b == 0x80 && c == 0x80)
    || (a == 0xEF && b == 0xBB && c == 0xBF)
  }

  /** How many bytes of white space start the text: those of one character in UTF-8, or none. */
  function WhiteAtStart(s: seq<byte>): (n: nat)
    ensures n <= |s|
  {
    if 1 <= |s| && White1(s[0]) then 1
    else if 2 <= |s| && White2(s[0], s[1]) then 2
    else if 3 <= |s| && White3(s[0], s[1], s[2]) then 3
    else 0
  }

  function WhiteAtEnd(s: seq<byte>): (n: nat)
    ensures n <= |s|
  {
    var k := |s|;
    if 1 <= k && White1(s[k - 1]) then 1
    else if 2 <= k && White2(s[k - 2], s[k - 1]) then 2
    else if 3 <= k && White3(s[k - 3], s[k - 2], s[k - 1]) then 3
    else 0
  }

  function TrimStart(s: seq<byte>): seq<byte> {
    var n := WhiteAtStart(s);
    if n > 0 then TrimStart(s[n..]) else s
  }

  function TrimEnd(s: seq<byte>): seq<byte> {
    var n := WhiteAtEnd(s);
    if n > 0 then TrimEnd(s[..|s| - n]) else s
  }

  function Trim(s: seq<byte>): seq<byte> {
    TrimEnd(TrimStart(s))
  }

  function TarString(field: seq<byte>): seq<byte> {
    Trim(UpToNul(field))
  }

  predicate OctalDigits(s: seq<byte>) {
    forall k :: 0 <= k < |s| ==> ZERO <= s[k] < ZERO + 8
  }

  function OctalValue(digits: seq<byte>): nat
    requires OctalDigits(digits)
  {
    if digits == [] then 0
    else OctalValue(digits[..|digits| - 1]) * 8 + (digits[|digits| - 1] - ZERO)
  }

  function TarOctal(field: seq<byte>, error: Error): Result<nat> {
    var digits := TarString(field);
    if digits == [] || !OctalDigits(digits) then Err(error) else Ok(OctalValue(digits))
  }

  // ----- trimming bytes is trimming characters

  /** The bytes of one character that `trim` takes off, in UTF-8. */
  predicate White(w: seq<byte>) {
    w != [] && WhiteAtStart(w) == |w|
  }

  function ToByte(n: nat): byte
    requires n < 256
  {
    n
  }

  /** A character below U+10000 in UTF-8. */
  function Utf8(c: char): seq<byte>
    requires c < '\U{10000}'
  {
    var n := c as int;
    if n < 0x80 then [ToByte(n)]
    else if n < 0x800 then [ToByte(0xC0 + n / 64), ToByte(0x80 + n % 64)]
    else [ToByte(0xE0 + n / 4096), ToByte(0x80 + n / 64 % 64), ToByte(0x80 + n % 64)]
  }

  /** The bytes taken off are those of the characters taken off. */
  lemma WhiteIff(c: char)
    requires c < '\U{10000}'
    ensures White(Utf8(c)) <==> JsStrings.IsWhite(c)
  {
    var n := c as int;
    if n >= 0x800 {
      WhiteIff3(c, n / 4096, n / 64 % 64, n % 64);
    } else if n >= 0x80 {
      assert n == 64 * (n / 64) + n % 64;
    }
  }

  lemma WhiteIff3(c: char, high: nat, middle: nat, low: nat)
    requires '\U{800}' <= c < '\U{10000}' && high < 16 && middle < 64 && low < 64
    requires c as int == 4096 * high + 64 * middle + low
    ensures White3(ToByte(0xE0 + high), ToByte(0x80 + middle), ToByte(0x80 + low)) <==> JsStrings.IsWhite(c)
  {}

  lemma WhiteIsEncoded(w: seq<byte>) returns (c: char)
    requires White(w)
    ensures c < '\U{10000}' && Utf8(c) == w
  {
    if |w| == 1 {
      c := w[0] as char;
    } else if |w| == 2 {
      c := '\U{A0}';
    } else {
      var n := 4096 * (w[0] as int - 0xE0) + 64 * (w[1] as int - 0x80) + (w[2] as int - 0x80);
      c := n as char;
    }
  }

  function Flat(parts: seq<seq<byte>>): seq<byte> {
    if parts == [] then [] else parts[0] + Flat(parts[1..])
  }

  predicate AllWhite(parts: seq<seq<byte>>) {
    forall k :: 0 <= k < |parts| ==> White(parts[k])
  }

  lemma {:induction false} TrimStartCuts(s: seq<byte>) returns (parts: seq<seq<byte>>)
    ensures AllWhite(parts) && s == Flat(parts) + TrimStart(s) && WhiteAtStart(TrimStart(s)) == 0
  {
    var n := WhiteAtStart(s);
    parts := [];
    if n > 0 {
      parts := TrimStartCuts(s[n..]);
      assert s == s[..n] + s[n..];
      Splitting.Assoc(s[..n], Flat(parts), TrimStart(s));
      assert ([s[..n]] + parts)[1..] == parts;
      parts := [s[..n]] + parts;
    }
  }

  lemma {:induction false} FlatSnoc(parts: seq<seq<byte>>, last: seq<byte>)
    ensures Flat(parts + [last]) == Flat(parts) + last
  {
    if parts == [] {
      assert parts + [last] == [last] && [last][1..] == [];
    } else {
      FlatSnoc(parts[1..], last);
      assert (parts + [last])[1..] == parts[1..] + [last];
      Splitting.Assoc(parts[0], Flat(parts[1..]), last);
    }
  }

  lemma LastWhite(s: seq<byte>) returns (last: seq<byte>)
    requires WhiteAtEnd(s) > 0
    ensures last == s[|s| - WhiteAtEnd(s)..] && White(last)
  {
    last := s[|s| - WhiteAtEnd(s)..];
  }

  lemma {:induction false} TrimEndCuts(s: seq<byte>) returns (parts: seq<seq<byte>>)
    ensures AllWhite(parts) && s == TrimEnd(s) + Flat(parts) && WhiteAtEnd(TrimEnd(s)) == 0
  {
    var n := WhiteAtEnd(s);
    parts := [];
    if n > 0 {
      var last := LastWhite(s);
      parts := TrimEndCuts(s[..|s| - n]);
      assert s == s[..|s| - n] + last;
      FlatSnoc(parts, last);
      Splitting.Assoc(TrimEnd(s), Flat(parts), last);
      parts := parts + [last];
    }
  }

  /** Trimming takes off whole characters of white space alone, and leaves none at the end. */
  lemma TrimIsExact(s: seq<byte>) returns (before: seq<seq<byte>>, after: seq<seq<byte>>)
    ensures AllWhite(before) && AllWhite(after) && s == Flat(before) + Trim(s) + Flat(after)
    ensures WhiteAtEnd(Trim(s)) == 0 && WhiteAtStart(TrimStart(s)) == 0
  {
    before := TrimStartCuts(s);
    after := TrimEndCuts(TrimStart(s));
    Splitting.Assoc(Flat(before), Trim(s), Flat(after));
  }

  // ----- the header

  /** A byte as the checksum sees it: its own field counts as spaces. */
  function Summand(header: seq<byte>, k: nat): byte
    requires k < |header|
  {
    if CHECKSUM <= k < CHECKSUM_END then SPACE else header[k]
  }

  function Sum(header: seq<byte>, n: nat): nat
    requires n <= |header|
  {
    if n == 0 then 0 else Sum(header, n - 1) + Summand(header, n - 1)
  }

  function Checksum(header: seq<byte>): nat {
    Sum(header, |header|)
  }

  predicate ZeroBlock(block: seq<byte>) {
    forall k :: 0 <= k < |block| ==> block[k] == 0
  }

  predicate ChecksumHolds(header: seq<byte>)
    requires |header| == BLOCK
  {
    TarOctal(header[CHECKSUM..CHECKSUM_END], BadChecksumField) == Ok(Checksum(header))
  }

  function Path(prefix: seq<byte>, name: seq<byte>): seq<byte> {
    if prefix != [] then prefix + [SLASH] + name else name
  }

  function ReadHeader(header: seq<byte>): Result<Entry>
    requires |header| == BLOCK
  {
    var checksum := TarOctal(header[CHECKSUM..CHECKSUM_END], BadChecksumField);
    if checksum.Err? then Err(checksum.error)
    else if checksum.value != Checksum(header) then Err(BadChecksum)
    else
      var size := TarOctal(header[SIZE..SIZE_END], BadSizeField);
      if size.Err? then Err(size.error)
      else Ok(Entry(Path(TarString(header[PREFIX..PREFIX_END]), TarString(header[..NAME_END])),
                    size.value, header[TYPE] == 0 || header[TYPE] == ZERO))
  }

  // ----- the scan

  /** `n` is a multiple of the block size. */
  predicate WholeBlocks(n: nat) {
    n == 0 || (n >= BLOCK && WholeBlocks(n - BLOCK))
  }

  lemma {:induction false} WholeBlocksIff(n: nat)
    ensures WholeBlocks(n) <==> n % 512 == 0
  {
    if n >= BLOCK {
      WholeBlocksIff(n - BLOCK);
    }
  }

  lemma {:induction false} BlocksAdd(a: nat, b: nat)
    requires WholeBlocks(a) && WholeBlocks(b)
    ensures WholeBlocks(a + b)
  {
    if a > 0 {
      BlocksAdd(a - BLOCK, b);
    }
  }

  lemma {:induction false} RoomForBlocks(a: nat, b: nat)
    requires WholeBlocks(a) && WholeBlocks(b) && a < b
    ensures a + BLOCK <= b
  {
    if a > 0 {
      RoomForBlocks(a - BLOCK, b - BLOCK);
    }
  }

  function Padded(size: nat): (r: nat)
    ensures size <= r < size + BLOCK && WholeBlocks(r)
  {
    WholeBlocksIff((size + 511) / 512 * 512);
    (size + 511) / 512 * 512
  }

  lemma PaddedFits(size: nat, room: nat)
    requires size <= room && WholeBlocks(room)
    ensures Padded(size) <= room
  {
    if Padded(size) > room { RoomForBlocks(room, Padded(size)); }
  }

  /** What one round of the loop decides: the answer, or how far to move on. */
  datatype Step = Stop(answer: Result<seq<byte>>) | Skip(n: nat)

  function Look(left: seq<byte>, binary: seq<byte>): Step {
    if |left| < BLOCK || ZeroBlock(left[..BLOCK]) then Stop(Err(NotFound))
    else match ReadHeader(left[..BLOCK])
      case Err(error) => Stop(Err(error))
      case Ok(entry) =>
        if BLOCK + entry.size > |left| then Stop(Err(Truncated))
        else if entry.path == binary && entry.regular then
          Stop(if entry.size == 0 || entry.size > MAX_BINARY then Err(BadBinarySize)
               else Ok(left[BLOCK..BLOCK + entry.size]))
        else Skip(BLOCK + Padded(entry.size))
  }

  /** The scan of what is left of the archive. */
  function Scan(left: seq<byte>, binary: seq<byte>): Result<seq<byte>>
    decreases |left|
  {
    match Look(left, binary)
    case Stop(answer) => answer
    case Skip(n) => if 0 < n <= |left| then Scan(left[n..], binary) else Err(NotFound)
  }

  lemma ScanSkips(left: seq<byte>, binary: seq<byte>, n: nat)
    requires Look(left, binary) == Skip(n) && 0 < n <= |left|
    ensures Scan(left, binary) == Scan(left[n..], binary)
  {}

  function Extract(archive: seq<byte>, binary: seq<byte>): Result<seq<byte>> {
    if |archive| < BLOCK || !WholeBlocks(|archive|) then Err(BadLength) else Scan(archive, binary)
  }

  // ----- printing

  /** A member of the archive; `other` supplies the header bytes that carry none of its fields. */
  datatype File = File(name: seq<byte>, prefix: seq<byte>, kind: byte, payload: seq<byte>, other: seq<byte>)

  predicate Text(s: seq<byte>) {
    0 !in s && WhiteAtStart(s) == 0 && WhiteAtEnd(s) == 0
  }

  function Pow8(n: nat): nat {
    if n == 0 then 1 else 8 * Pow8(n - 1)
  }

  predicate WellFormed(f: File) {
    && 0 < |f.name| <= NAME_END && Text(f.name)
    && |f.prefix| <= PREFIX_END - PREFIX && Text(f.prefix)
    && |f.payload| < Pow8(11)
    && |f.other| == BLOCK
  }

  function Octal(n: nat, width: nat): (digits: seq<byte>)
    ensures |digits| == width && OctalDigits(digits)
  {
    if width == 0 then [] else Octal(n / 8, width - 1) + [ZERO + n % 8]
  }

  function Zeros(n: nat): seq<byte> {
    seq(n, i => 0)
  }

  function Fill(s: seq<byte>, width: nat): (r: seq<byte>)
    requires |s| <= width
    ensures |r| == width
  {
    s + Zeros(width - |s|)
  }

  /** The header with its checksum field still blank. */
  function Unsummed(f: File): (h: seq<byte>)
    requires WellFormed(f)
    ensures |h| == BLOCK
  {
    Fill(f.name, NAME_END) + f.other[NAME_END..SIZE]
    + Octal(|f.payload|, 11) + [0] + f.other[SIZE_END..CHECKSUM]
    + seq(8, i => SPACE) + [f.kind] + f.other[TYPE + 1..PREFIX]
    + Fill(f.prefix, PREFIX_END - PREFIX) + f.other[PREFIX_END..]
  }

  function Header(f: File): (h: seq<byte>)
    requires WellFormed(f)
    ensures |h| == BLOCK
  {
    var blank := Unsummed(f);
    blank[..CHECKSUM] + Octal(Checksum(blank), 6) + [0, SPACE] + blank[CHECKSUM_END..]
  }

  function Member(f: File): seq<byte>
    requires WellFormed(f)
  {
    Header(f) + f.payload + Zeros(Padded(|f.payload|) - |f.payload|)
  }

  function Members(files: seq<File>): seq<byte>
    requires forall k :: 0 <= k < |files| ==> WellFormed(files[k])
  {
    if files == [] then [] else Member(files[0]) + Members(files[1..])
  }

  /** A regular file: type NUL or "0". */
  predicate Regular(f: File) {
    f.kind == 0 || f.kind == 0x30
  }

  /** The member's path, its prefix, a slash and its name, or its name alone, is this one. */
  predicate Named(f: File, path: seq<byte>) {
    if f.prefix == [] then f.name == path else f.prefix + [0x2F] + f.name == path
  }

  /** A binary's name without a slash is the path of a member with that very name and no prefix, and of no other. */
  lemma SlashlessIff(f: File, binary: seq<byte>)
    requires 0x2F !in binary
    ensures Named(f, binary) <==> f.prefix == [] && f.name == binary
  {
    if f.prefix != [] {
      assert (f.prefix + [0x2F] + f.name)[|f.prefix|] == 0x2F;
    }
  }

  /** The reference: the first regular member whose path is the binary's name. */
  function FirstMatch(files: seq<File>, binary: seq<byte>): Result<seq<byte>> {
    if files == [] then Err(NotFound)
    else if Named(files[0], binary) && Regular(files[0]) then
      if files[0].payload == [] || |files[0].payload| > 536_870_912 then Err(BadBinarySize)
      else Ok(files[0].payload)
    else FirstMatch(files[1..], binary)
  }

  // ----- fields come back

  lemma {:induction false} UpToNulText(s: seq<byte>, more: seq<byte>)
    requires 0 !in s && (more == [] || more[0] == 0)
    ensures UpToNul(s + more) == s
  {
    if s == [] {
      assert s + more == more;
    } else {
      assert (s + more)[1..] == s[1..] + more;
      UpToNulText(s[1..], more);
    }
  }

  /** Just those texts survive trimming. */
  lemma TextIff(s: seq<byte>)
    ensures Text(s) <==> 0 !in s && Trim(s) == s
  {
    var before := TrimStartCuts(s);
    var after := TrimEndCuts(TrimStart(s));
  }

  lemma FilledText(s: seq<byte>, width: nat)
    requires |s| <= width && Text(s)
    ensures TarString(Fill(s, width)) == s
  {
    UpToNulText(s, Zeros(width - |s|));
    TextIff(s);
  }

  lemma TrimDigits(digits: seq<byte>)
    requires OctalDigits(digits)
    ensures Trim(digits) == digits && 0 !in digits
  {}

  lemma {:induction false} OctalRoundTrip(n: nat, width: nat)
    requires n < Pow8(width)
    ensures OctalValue(Octal(n, width)) == n
  {
    if width > 0 {
      OctalRoundTrip(n / 8, width - 1);
      var digits := Octal(n, width);
      assert digits[..width - 1] == Octal(n / 8, width - 1);
    }
  }

  lemma OctalField(n: nat, width: nat, more: seq<byte>)
    requires n < Pow8(width) && width > 0 && (more == [] || more[0] == 0)
    ensures forall e :: TarOctal(Octal(n, width) + more, e) == Ok(n)
  {
    var digits := Octal(n, width);
    TrimDigits(digits);
    UpToNulText(digits, more);
    OctalRoundTrip(n, width);
  }

  // ----- the checksum

  lemma {:induction false} SumAgrees(a: seq<byte>, b: seq<byte>, n: nat)
    requires n <= |a| && n <= |b| && forall k :: 0 <= k < n ==> Summand(a, k) == Summand(b, k)
    ensures Sum(a, n) == Sum(b, n)
  {
    if n > 0 {
      SumAgrees(a, b, n - 1);
    }
  }

  lemma {:induction false} SumBound(a: seq<byte>, n: nat)
    requires n <= |a|
    ensures Sum(a, n) <= 255 * n
  {
    if n > 0 {
      SumBound(a, n - 1);
    }
  }

  lemma {:induction false} SumChanges(a: seq<byte>, k: nat, v: byte, n: nat)
    requires k < |a| && n <= |a| && !(CHECKSUM <= k < CHECKSUM_END)
    ensures Sum(a[k := v], n) == Sum(a, n) + (if k < n then v - a[k] else 0)
  {
    if n > 0 {
      SumChanges(a, k, v, n - 1);
    }
  }

  // ----- slices

  lemma SliceOfRest<T>(s: seq<T>, offset: nat, i: nat, j: nat)
    requires i <= j && offset + j <= |s|
    ensures s[offset..][i..j] == s[offset + i..offset + j] && s[offset..][j..] == s[offset + j..]
  {}

  lemma RestOfRest<T>(left: seq<T>, s: seq<T>, offset: nat, n: nat)
    requires offset + n <= |s| && left == s[offset..]
    ensures left[n..] == s[offset + n..]
  {}

  // ----- a printed header reads back

  lemma UnsummedFields(f: File)
    requires WellFormed(f)
    ensures var h := Unsummed(f);
      && h[..NAME_END] == Fill(f.name, NAME_END)
      && h[SIZE..SIZE_END] == Octal(|f.payload|, 11) + [0]
      && h[TYPE] == f.kind
      && h[PREFIX..PREFIX_END] == Fill(f.prefix, PREFIX_END - PREFIX)
  {}

  lemma HeaderFields(f: File)
    requires WellFormed(f)
    ensures var h, blank := Header(f), Unsummed(f);
      && h[..CHECKSUM] == blank[..CHECKSUM]
      && h[CHECKSUM..CHECKSUM_END] == Octal(Checksum(blank), 6) + [0, SPACE]
      && h[CHECKSUM_END..] == blank[CHECKSUM_END..]
  {}

  lemma SliceOfPrefix<T>(a: seq<T>, b: seq<T>, n: nat, i: nat, j: nat)
    requires i <= j <= n <= |a| && n <= |b| && a[..n] == b[..n]
    ensures a[i..j] == b[i..j]
  {
    assert a[i..j] == a[..n][i..j] && b[i..j] == b[..n][i..j];
  }

  lemma SliceOfSuffix<T>(a: seq<T>, b: seq<T>, n: nat, i: nat, j: nat)
    requires n <= i <= j <= |a| == |b| && a[n..] == b[n..]
    ensures a[i..j] == b[i..j]
  {
    SliceOfRest(a, n, i - n, j - n);
    SliceOfRest(b, n, i - n, j - n);
  }

  lemma Pow8Of6()
    ensures Pow8(6) == 262144
  {
    assert Pow8(1) == 8 * Pow8(0) && Pow8(2) == 8 * Pow8(1) && Pow8(3) == 8 * Pow8(2);
    assert Pow8(4) == 8 * Pow8(3) && Pow8(5) == 8 * Pow8(4) && Pow8(6) == 8 * Pow8(5);
  }

  lemma HeaderSum(f: File)
    requires WellFormed(f)
    ensures Checksum(Header(f)) == Checksum(Unsummed(f)) < Pow8(6)
  {
    var h, blank := Header(f), Unsummed(f);
    HeaderFields(f);
    forall k | 0 <= k < BLOCK ensures Summand(h, k) == Summand(blank, k) {
      if k < CHECKSUM {
        assert h[k] == h[..CHECKSUM][k] && blank[k] == blank[..CHECKSUM][k];
      } else if k >= CHECKSUM_END {
        assert h[k] == h[CHECKSUM_END..][k - CHECKSUM_END] && blank[k] == blank[CHECKSUM_END..][k - CHECKSUM_END];
      }
    }
    SumAgrees(h, blank, BLOCK);
    SumBound(blank, BLOCK);
    Pow8Of6();
  }

  lemma HeaderChecksum(f: File)
    requires WellFormed(f)
    ensures TarOctal(Header(f)[CHECKSUM..CHECKSUM_END], BadChecksumField) == Ok(Checksum(Header(f)))
  {
    HeaderFields(f);
    HeaderSum(f);
    OctalField(Checksum(Unsummed(f)), 6, [0, SPACE]);
  }

  lemma HeaderReads(f: File)
    requires WellFormed(f)
    ensures ReadHeader(Header(f)).Ok? && Named(f, ReadHeader(Header(f)).value.path)
    ensures ReadHeader(Header(f)).value.size == |f.payload| && ReadHeader(Header(f)).value.regular == Regular(f)
    ensures !ZeroBlock(Header(f))
  {
    var h, blank := Header(f), Unsummed(f);
    HeaderFields(f);
    UnsummedFields(f);
    assert h[..NAME_END] == blank[..NAME_END] by { SliceOfPrefix(h, blank, CHECKSUM, 0, NAME_END); }
    assert h[SIZE..SIZE_END] == blank[SIZE..SIZE_END] by { SliceOfPrefix(h, blank, CHECKSUM, SIZE, SIZE_END); }
    assert h[PREFIX..PREFIX_END] == blank[PREFIX..PREFIX_END] by {
      SliceOfSuffix(h, blank, CHECKSUM_END, PREFIX, PREFIX_END);
    }
    assert h[TYPE] == blank[TYPE] by {
      SliceOfSuffix(h, blank, CHECKSUM_END, TYPE, TYPE + 1);
      assert h[TYPE] == h[TYPE..TYPE + 1][0] && blank[TYPE] == blank[TYPE..TYPE + 1][0];
    }
    HeaderChecksum(f);
    FilledText(f.name, NAME_END);
    FilledText(f.prefix, PREFIX_END - PREFIX);
    OctalField(|f.payload|, 11, [0]);
    assert h[CHECKSUM] == h[CHECKSUM..CHECKSUM_END][0] >= ZERO;
  }

  // ----- the printed header is the standard's

  predicate NulPadded(field: seq<byte>, text: seq<byte>) {
    |text| <= |field| && field[..|text|] == text && forall k :: |text| <= k < |field| ==> field[k] == 0
  }

  function ByteSum(s: seq<byte>): nat {
    if s == [] then 0 else ByteSum(s[..|s| - 1]) + s[|s| - 1]
  }

  /** Six or eleven octal digits with this value. */
  predicate OctalIs(digits: seq<byte>, n: nat) {
    (forall k :: 0 <= k < |digits| ==> 0x30 <= digits[k] <= 0x37) && OctalValue(digits) == n
  }

  /** The header block of "ustar Interchange Format", field by field, with its sum counting eight spaces for itself. */
  predicate Ustar(h: seq<byte>, f: File) {
    && |h| == 512
    && NulPadded(h[0..100], f.name)
    && OctalIs(h[124..135], |f.payload|) && h[135] == 0
    && OctalIs(h[148..154], ByteSum(h[..148]) + 256 + ByteSum(h[156..])) && h[154] == 0
    && h[156] == f.kind
    && NulPadded(h[345..500], f.prefix)
  }

  /** The weight of an octal digit is eight times that of the next. */
  lemma {:induction false} OctalSplits(a: seq<byte>, b: seq<byte>)
    requires OctalDigits(a) && OctalDigits(b)
    ensures OctalDigits(a + b) && OctalValue(a + b) == OctalValue(a) * Pow8(|b|) + OctalValue(b)
    ensures |b| == 1 ==> OctalValue(b) == b[0] - 0x30
    decreases |b|
  {
    if b == [] {
      assert a + b == a;
    } else {
      var front := b[..|b| - 1];
      assert (a + b)[..|a + b| - 1] == a + front;
      OctalSplits(a, front);
      assert OctalValue(b) == OctalValue(front) * 8 + (b[|b| - 1] - ZERO);
      assert OctalValue(a + b) == OctalValue(a + front) * 8 + (b[|b| - 1] - ZERO);
      TimesEight(OctalValue(a), Pow8(|front|), OctalValue(front));
      assert |b| == 1 ==> front == [];
    }
  }

  lemma TimesEight(x: nat, p: nat, v: nat)
    ensures (x * p + v) * 8 == x * (8 * p) + v * 8
  {}

  lemma {:induction false} SumBefore(h: seq<byte>, n: nat)
    requires n <= CHECKSUM && n <= |h|
    ensures Sum(h, n) == ByteSum(h[..n])
  {
    if n > 0 {
      SumBefore(h, n - 1);
      assert h[..n][..n - 1] == h[..n - 1];
    }
  }

  lemma {:induction false} SumInside(h: seq<byte>, n: nat)
    requires CHECKSUM <= n <= CHECKSUM_END && n <= |h|
    ensures Sum(h, n) == Sum(h, CHECKSUM) + 32 * (n - CHECKSUM)
  {
    if n > CHECKSUM { SumInside(h, n - 1); }
  }

  lemma {:induction false} SumBehind(h: seq<byte>, n: nat)
    requires CHECKSUM_END <= n <= |h|
    ensures Sum(h, n) == Sum(h, CHECKSUM_END) + ByteSum(h[CHECKSUM_END..n])
  {
    if n > CHECKSUM_END {
      SumBehind(h, n - 1);
      assert h[CHECKSUM_END..n][..n - 1 - CHECKSUM_END] == h[CHECKSUM_END..n - 1];
    }
  }

  /** The checksum is the sum of the bytes, 32 for each of the eight of its own field. */
  lemma ChecksumInFigures(h: seq<byte>)
    requires |h| == 512
    ensures Checksum(h) == ByteSum(h[..148]) + 256 + ByteSum(h[156..])
  {
    SumBefore(h, CHECKSUM);
    SumInside(h, CHECKSUM_END);
    SumBehind(h, |h|);
    assert h[CHECKSUM_END..|h|] == h[CHECKSUM_END..];
  }

  lemma FillIsPadded(text: seq<byte>, width: nat)
    requires |text| <= width
    ensures NulPadded(Fill(text, width), text)
  {}

  lemma OctalPrinted(n: nat, width: nat)
    requires n < Pow8(width)
    ensures OctalIs(Octal(n, width), n)
  {
    OctalRoundTrip(n, width);
  }

  lemma HeaderIsUstar(f: File)
    requires WellFormed(f)
    ensures Ustar(Header(f), f)
  {
    var h, blank := Header(f), Unsummed(f);
    HeaderFields(f);
    UnsummedFields(f);
    HeaderSum(f);
    ChecksumInFigures(h);
    assert h[0..100] == Fill(f.name, 100) by { SliceOfPrefix(h, blank, CHECKSUM, 0, 100); }
    FillIsPadded(f.name, 100);
    SizeIsOctal(f);
    assert OctalIs(h[148..154], Checksum(h)) && h[154] == 0 by { SumIsOctal(f); }
    assert h[156] == blank[156] by { SliceOfSuffix(h, blank, CHECKSUM_END, 156, 157); assert h[156] == h[156..157][0]; }
    assert h[345..500] == Fill(f.prefix, 155) by { SliceOfSuffix(h, blank, CHECKSUM_END, 345, 500); }
    FillIsPadded(f.prefix, 155);
  }

  lemma SizeIsOctal(f: File)
    requires WellFormed(f)
    ensures OctalIs(Header(f)[124..135], |f.payload|) && Header(f)[135] == 0
  {
    var h, blank := Header(f), Unsummed(f);
    HeaderFields(f);
    UnsummedFields(f);
    SliceOfPrefix(h, blank, CHECKSUM, 124, 136);
    assert h[124..136] == Octal(|f.payload|, 11) + [0];
    assert h[124..135] == h[124..136][..11] && h[135] == h[124..136][11];
    OctalPrinted(|f.payload|, 11);
  }

  lemma SumIsOctal(f: File)
    requires WellFormed(f)
    ensures OctalIs(Header(f)[148..154], Checksum(Header(f))) && Header(f)[154] == 0
  {
    var h := Header(f);
    HeaderFields(f);
    HeaderSum(f);
    assert h[148..156] == Octal(Checksum(h), 6) + [0, SPACE];
    assert h[148..154] == h[148..156][..6] && h[154] == h[148..156][6];
    OctalPrinted(Checksum(h), 6);
  }

  lemma MemberParts(f: File, more: seq<byte>)
    requires WellFormed(f)
    ensures var left, size := Member(f) + more, |f.payload|;
      && |Member(f)| == BLOCK + Padded(size)
      && left[..BLOCK] == Header(f)
      && left[BLOCK..BLOCK + size] == f.payload
      && left[BLOCK + Padded(size)..] == more
  {
    var a, b, c := Header(f), f.payload, Zeros(Padded(|f.payload|) - |f.payload|);
    FourParts(a, b, c, more);
  }

  lemma FourParts<T>(a: seq<T>, b: seq<T>, c: seq<T>, d: seq<T>)
    ensures var s := a + b + c + d;
      && s[..|a|] == a && s[|a|..|a| + |b|] == b && s[|a| + |b| + |c|..] == d
  {}

  lemma MemberLook(f: File, more: seq<byte>, binary: seq<byte>)
    requires WellFormed(f)
    ensures Look(Member(f) + more, binary)
      == if Path(f.prefix, f.name) == binary && Regular(f) then Stop(FirstMatch([f], binary)) else Skip(|Member(f)|)
  {
    MemberParts(f, more);
    HeaderReads(f);
  }

  /** After the last member: nothing, or a zero block and whatever follows it. */
  predicate Trailer(t: seq<byte>) {
    WholeBlocks(|t|) && (t == [] || ZeroBlock(t[..BLOCK]))
  }

  lemma MemberLength(f: File)
    requires WellFormed(f)
    ensures WholeBlocks(|Member(f)|) && |Member(f)| >= BLOCK
  {
    BlocksAdd(0, Padded(|f.payload|));
  }

  lemma WholeTogether<T>(a: seq<T>, b: seq<T>)
    requires WholeBlocks(|a|) && WholeBlocks(|b|)
    ensures WholeBlocks(|a + b|)
  {
    BlocksAdd(|a|, |b|);
  }

  lemma {:induction false} MembersLength(files: seq<File>)
    requires forall k :: 0 <= k < |files| ==> WellFormed(files[k])
    ensures WholeBlocks(|Members(files)|) && (files != [] ==> |Members(files)| >= BLOCK)
  {
    if files != [] {
      var rest := files[1..];
      MembersLength(rest);
      MemberLength(files[0]);
      WholeTogether(Member(files[0]), Members(rest));
    }
  }

  lemma {:induction false} MembersScan(files: seq<File>, trailer: seq<byte>, binary: seq<byte>)
    requires (forall k :: 0 <= k < |files| ==> WellFormed(files[k])) && Trailer(trailer)
    ensures Scan(Members(files) + trailer, binary) == FirstMatch(files, binary)
  {
    if files == [] {
      assert Members(files) + trailer == trailer;
    } else {
      var more := Members(files[1..]) + trailer;
      MembersScan(files[1..], trailer, binary);
      MemberLook(files[0], more, binary);
      MemberParts(files[0], more);
      Splitting.Assoc(Member(files[0]), Members(files[1..]), trailer);
    }
  }

  /** Extraction inverts printing: it finds the payload of the first regular member with the binary's path. */
  lemma RoundTrip(files: seq<File>, trailer: seq<byte>, binary: seq<byte>)
    requires (forall k :: 0 <= k < |files| ==> WellFormed(files[k])) && Trailer(trailer)
    requires files != [] || trailer != []
    ensures Extract(Members(files) + trailer, binary) == FirstMatch(files, binary)
  {
    var archive := Members(files) + trailer;
    assert BLOCK <= |archive| && WholeBlocks(|archive|) by {
      MembersLength(files);
      TrailerLength(trailer);
      BlocksAdd(|Members(files)|, |trailer|);
    }
    MembersScan(files, trailer, binary);
  }

  lemma TrailerLength(trailer: seq<byte>)
    requires Trailer(trailer)
    ensures trailer != [] ==> |trailer| >= BLOCK
  {}

  // ----- what is refused

  /** An archive that is no whole number of 512-byte blocks, or has none, is refused as a whole. */
  lemma LengthIsChecked(archive: seq<byte>, binary: seq<byte>)
    requires |archive| < 512 || |archive| % 512 != 0
    ensures Extract(archive, binary) == Err(BadLength)
  {
    WholeBlocksIff(|archive|);
  }

  /** So is a member whose payload the archive does not hold in full, whatever its name. */
  lemma TruncationIsFound(f: File, rest: seq<byte>, binary: seq<byte>)
    requires WellFormed(f) && |rest| < |f.payload|
    ensures Scan(Header(f) + rest, binary) == Err(Truncated)
  {
    var left := Header(f) + rest;
    assert left[..BLOCK] == Header(f);
    HeaderReads(f);
    assert Look(left, binary) == Stop(Err(Truncated));
  }

  /** A field that holds anything but octal digits, or nothing, is no number. */
  lemma OctalIff(field: seq<byte>, error: Error)
    ensures TarOctal(field, error).Ok? <==>
            TarString(field) != [] && forall k :: 0 <= k < |TarString(field)| ==> 0x30 <= TarString(field)[k] <= 0x37
    ensures TarOctal(field, error).Err? ==> TarOctal(field, error).error == error
  {}

  // ----- tampering

  /** The scan looks at the header at this offset. */
  predicate Reached(left: seq<byte>, binary: seq<byte>, offset: nat)
    decreases |left|
  {
    && BLOCK <= |left| && !ZeroBlock(left[..BLOCK])
    && (offset == 0 ||
        (var step := Look(left, binary);
         && step.Skip? && 0 < step.n <= offset && step.n <= |left|
         && Reached(left[step.n..], binary, offset - step.n)))
  }

  lemma SkipsBlocks(left: seq<byte>, binary: seq<byte>)
    requires Look(left, binary).Skip?
    ensures WholeBlocks(Look(left, binary).n) && Look(left, binary).n >= BLOCK
  {
    BlocksAdd(0, Padded(ReadHeader(left[..BLOCK]).value.size));
  }

  /** Every header looked at starts on a block boundary and lies inside the archive. */
  lemma {:induction false} ReachedInside(left: seq<byte>, binary: seq<byte>, offset: nat)
    requires Reached(left, binary, offset)
    ensures WholeBlocks(offset) && offset + BLOCK <= |left|
    decreases |left|
  {
    if offset > 0 {
      var n := Look(left, binary).n;
      SkipsBlocks(left, binary);
      ReachedInside(left[n..], binary, offset - n);
      BlocksAdd(n, offset - n);
    }
  }

  lemma TamperedHeader(header: seq<byte>, k: nat, v: byte)
    requires |header| == BLOCK && k < BLOCK && !(CHECKSUM <= k < CHECKSUM_END) && v != header[k]
    requires ChecksumHolds(header)
    ensures ReadHeader(header[k := v]) == Err(BadChecksum) && !ZeroBlock(header[k := v])
  {
    var changed := header[k := v];
    assert changed[CHECKSUM..CHECKSUM_END] == header[CHECKSUM..CHECKSUM_END];
    SumChanges(header, k, v, BLOCK);
    assert header[CHECKSUM..CHECKSUM_END][0] != 0;
    assert changed[CHECKSUM] == header[CHECKSUM] != 0;
  }

  lemma LookUnchanged(left: seq<byte>, changed: seq<byte>, binary: seq<byte>)
    requires |left| == |changed| >= BLOCK && left[..BLOCK] == changed[..BLOCK] && Look(left, binary).Skip?
    ensures Look(changed, binary) == Look(left, binary)
  {}

  lemma SliceShift<T>(s: seq<T>, skip: nat, i: nat, n: nat)
    requires skip <= i && i + n <= |s|
    ensures s[skip..][i - skip..i - skip + n] == s[i..i + n]
  {}

  lemma PrefixOfPrefix<T>(a: seq<T>, b: seq<T>, n: nat, m: nat)
    requires m <= n <= |a| == |b| && a[..n] == b[..n]
    ensures a[..m] == b[..m] && a[m..][..n - m] == b[m..][..n - m]
  {
    assert a[..m] == a[..n][..m] && b[..m] == b[..n][..m];
    assert a[m..][..n - m] == a[..n][m..] && b[m..][..n - m] == b[..n][m..];
  }

  predicate Spoilt(archive: seq<byte>, offset: nat) {
    && offset + BLOCK <= |archive| && !ZeroBlock(archive[offset..offset + BLOCK])
    && ReadHeader(archive[offset..offset + BLOCK]) == Err(BadChecksum)
  }

  lemma SpoiltShift(archive: seq<byte>, skip: nat, offset: nat)
    requires skip <= offset && Spoilt(archive, offset)
    ensures Spoilt(archive[skip..], offset - skip)
  {
    SliceShift(archive, skip, offset, BLOCK);
  }

  lemma SpoiltHere(archive: seq<byte>, binary: seq<byte>)
    requires Spoilt(archive, 0)
    ensures Scan(archive, binary) == Err(BadChecksum)
  {
    assert archive[..BLOCK] == archive[0..0 + BLOCK];
  }

  /** Two archives that agree up to an offset are scanned alike up to it. */
  lemma SkipsAlike(left: seq<byte>, changed: seq<byte>, binary: seq<byte>, offset: nat)
    requires |left| == |changed| && Reached(left, binary, offset) && offset > 0 && offset <= |left|
    requires left[..offset] == changed[..offset]
    ensures var skip := Look(left, binary).n; Scan(changed, binary) == Scan(changed[skip..], binary)
  {
    SkipsBlocks(left, binary);
    PrefixOfPrefix(left, changed, offset, BLOCK);
    LookUnchanged(left, changed, binary);
    ScanSkips(changed, binary, Look(left, binary).n);
  }

  /** A header whose checksum no longer holds stops the scan that reaches it, whatever the rest became. */
  lemma {:induction false} SpoiltScan(left: seq<byte>, changed: seq<byte>, binary: seq<byte>, offset: nat)
    requires |left| == |changed| && Reached(left, binary, offset) && offset + BLOCK <= |left|
    requires left[..offset] == changed[..offset] && Spoilt(changed, offset)
    ensures Scan(changed, binary) == Err(BadChecksum)
    decreases |left|
  {
    if offset == 0 {
      SpoiltHere(changed, binary);
    } else {
      var skip := Look(left, binary).n;
      SkipsAlike(left, changed, binary, offset);
      PrefixOfPrefix(left, changed, offset, skip);
      SpoiltShift(changed, skip, offset);
      SpoiltScan(left[skip..], changed[skip..], binary, offset - skip);
    }
  }

  lemma UpdateInSlice<T>(s: seq<T>, i: nat, n: nat, k: nat, v: T)
    requires k < n && i + n <= |s|
    ensures s[i + k := v][i..i + n] == s[i..i + n][k := v] && s[i + k := v][..i] == s[..i]
  {}

  /**
   Changing any one byte, outside its checksum field, of a header the scan reaches and whose checksum
   held makes the extraction fail on the checksum.
   */
  lemma TamperingIsRejected(archive: seq<byte>, binary: seq<byte>, offset: nat, k: nat, v: byte)
    requires WholeBlocks(|archive|) && Reached(archive, binary, offset) && offset + BLOCK <= |archive|
    requires ChecksumHolds(archive[offset..offset + BLOCK])
    requires k < BLOCK && !(CHECKSUM <= k < CHECKSUM_END) && v != archive[offset + k]
    ensures Extract(archive[offset + k := v], binary) == Err(BadChecksum)
  {
    UpdateInSlice(archive, offset, BLOCK, k, v);
    TamperedHeader(archive[offset..offset + BLOCK], k, v);
    SpoiltScan(archive, archive[offset + k := v], binary, offset);
  }

  // ----- the programs

  method VerifyChecksum(header: seq<byte>) returns (r: Result<()>)
    requires |header| == BLOCK
    ensures r.Ok? <==> ChecksumHolds(header)
    ensures r.Err? ==> ReadHeader(header) == Err(r.error)
  {
    var expected := TarOctal(header[CHECKSUM..CHECKSUM_END], BadChecksumField);
    if expected.Err? { return Err(expected.error); }
    var actual := 0;
    for index := 0 to |header|
      invariant actual == Sum(header, index)
    {
      actual := actual + (if CHECKSUM <= index < CHECKSUM_END then SPACE else header[index]);
    }
    if actual != expected.value { return Err(BadChecksum); }
    return Ok(());
  }

  lemma MoveOn(offset: nat, length: nat, size: nat)
    requires WholeBlocks(offset) && WholeBlocks(length) && offset + BLOCK + size <= length
    ensures WholeBlocks(offset + BLOCK + Padded(size)) && offset + BLOCK + Padded(size) <= length
  {
    WholeBlocksIff(offset);
    WholeBlocksIff(length);
    WholeBlocksIff(length - offset - BLOCK);
    PaddedFits(size, length - offset - BLOCK);
    BlocksAdd(offset + BLOCK, Padded(size));
  }

  /** One round of the loop at a header inside the archive. */
  method LookAt(archive: seq<byte>, binary: seq<byte>, offset: nat) returns (step: Step)
    requires WholeBlocks(|archive|) && WholeBlocks(offset) && offset + BLOCK <= |archive|
    ensures step == Look(archive[offset..], binary)
    ensures step.Skip? ==> step.n > 0 && WholeBlocks(offset + step.n) && offset + step.n <= |archive|
  {
    var header := archive[offset..offset + BLOCK];
    SliceOfRest(archive, offset, 0, BLOCK);
    if ZeroBlock(header) { return Stop(Err(NotFound)); }
    var checked := VerifyChecksum(header);
    if checked.Err? { return Stop(Err(checked.error)); }
    var name := TarString(header[..NAME_END]);
    var prefix := TarString(header[PREFIX..PREFIX_END]);
    var size := TarOctal(header[SIZE..SIZE_END], BadSizeField);
    if size.Err? { return Stop(Err(size.error)); }
    var dataStart := offset + BLOCK;
    var dataEnd := dataStart + size.value;
    if dataEnd > |archive| { return Stop(Err(Truncated)); }
    if Path(prefix, name) == binary && (header[TYPE] == 0 || header[TYPE] == ZERO) {
      if size.value == 0 || size.value > MAX_BINARY { return Stop(Err(BadBinarySize)); }
      SliceOfRest(archive, offset, BLOCK, BLOCK + size.value);
      return Stop(Ok(archive[dataStart..dataEnd]));
    }
    MoveOn(offset, |archive|, size.value);
    return Skip(BLOCK + Padded(size.value));
  }

  lemma ScanStep(left: seq<byte>, binary: seq<byte>, step: Step)
    requires step == Look(left, binary)
    ensures step.Stop? ==> Scan(left, binary) == step.answer
    ensures step.Skip? && 0 < step.n <= |left| ==> Scan(left, binary) == Scan(left[step.n..], binary)
  {}

  lemma ScanTooShort(left: seq<byte>, binary: seq<byte>)
    requires |left| < BLOCK
    ensures Scan(left, binary) == Err(NotFound)
  {}

  /** `extractBinaryFromTar`: the offset stays a multiple of the block size and inside the archive. */
  method ExtractBinary(archive: seq<byte>, binary: seq<byte>) returns (r: Result<seq<byte>>)
    ensures r == Extract(archive, binary)
  {
    if |archive| < BLOCK || !WholeBlocks(|archive|) { return Err(BadLength); }
    var offset := 0;
    ghost var left, goal := archive, Extract(archive, binary);
    r := Err(NotFound);
    while offset + BLOCK <= |archive|
      invariant WholeBlocks(offset) && offset <= |archive| && left == archive[offset..]
      invariant Scan(left, binary) == goal && r == Err(NotFound)
      decreases |archive| - offset
    {
      var step := LookAt(archive, binary, offset);
      ScanStep(left, binary, step);
      if step.Stop? { return step.answer; }
      var next := offset + step.n;
      assert WholeBlocks(next) && next <= |archive|;
      RestOfRest(left, archive, offset, step.n);
      left := left[step.n..];
      offset := next;
    }
    ScanTooShort(left, binary);
  }
}
