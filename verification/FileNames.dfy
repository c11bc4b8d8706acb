/**
 How a file name travels: split at the last dot, copied into two fixed fields,
 read back up to the first zero byte, and joined again
 (`example/iperf-bats/iperf_file_transfer.cc`).
 */
module FileNames {
  import opened Bytes

  const MAX_NAME: nat := 256
  const MAX_EXTENSION: nat := 16
  const DOT: Byte := 46

  /** The position of the last dot, or -1. */
  function LastDot(s: seq<Byte>): (p: int)
    ensures -1 <= p < |s|
    ensures p >= 0 ==> s[p] == DOT
    ensures forall i :: p < i < |s| ==> s[i] != DOT
  {
    if s == [] then -1
    else if s[|s| - 1] == DOT then |s| - 1
    else LastDot(s[..|s| - 1])
  }

  function NameOnly(s: seq<Byte>): seq<Byte> {
    if LastDot(s) == -1 then s else s[..LastDot(s)]
  }

  function Extension(s: seq<Byte>): seq<Byte> {
    if LastDot(s) == -1 then [] else s[LastDot(s) + 1..]
  }

  function Zeros(n: nat): (r: seq<Byte>)
    ensures |r| == n && forall i :: 0 <= i < n ==> r[i] == 0
  {
    seq(n, _ => 0)
  }

  /** `strncpy` of at most `size - 1` bytes into a zeroed field of `size` bytes. */
  function Field(s: seq<Byte>, size: nat): (r: seq<Byte>)
    requires size > 0
    ensures |r| == size
  {
    var n := if |s| <= size - 1 then |s| else size - 1;
    s[..n] + Zeros(size - n)
  }

  /** A field read up to its first zero byte. */
  function ReadField(f: seq<Byte>): seq<Byte> {
    if f == [] || f[0] == 0 then [] else [f[0]] + ReadField(f[1..])
  }

  function Rejoin(name: seq<Byte>, ext: seq<Byte>): seq<Byte> {
    if ext == [] then name else name + [DOT] + ext
  }

  /** The name the receiver ends up with. */
  function Transferred(s: seq<Byte>): seq<Byte> {
    Rejoin(ReadField(Field(NameOnly(s), MAX_NAME)), ReadField(Field(Extension(s), MAX_EXTENSION)))
  }

  ghost predicate NulFree(s: seq<Byte>) {
    forall i :: 0 <= i < |s| ==> s[i] != 0
  }

  lemma {:induction false} ReadStops(s: seq<Byte>, rest: seq<Byte>)
    requires NulFree(s) && rest != [] && rest[0] == 0
    ensures ReadField(s + rest) == s
  {
    if s == [] {
      assert s + rest == rest;
    } else {
      ReadStops(s[1..], rest);
      assert (s + rest)[1..] == s[1..] + rest;
    }
  }

  /** A field gives back what was put in, cut to one byte less than its size. */
  lemma FieldReads(s: seq<Byte>, size: nat)
    requires NulFree(s) && size > 0
    ensures ReadField(Field(s, size)) == if |s| < size then s else s[..size - 1]
  {
    var n := if |s| <= size - 1 then |s| else size - 1;
    ReadStops(s[..n], Zeros(size - n));
  }

  lemma SplitRejoins(s: seq<Byte>)
    ensures LastDot(s) == -1 ==> NameOnly(s) == s && Extension(s) == []
    ensures LastDot(s) >= 0 ==> s == NameOnly(s) + [DOT] + Extension(s)
  {
  }

  /** The condition a caller can test: both parts fit and the name does not end in a dot. */
  predicate Fits(s: seq<Byte>) {
    && |NameOnly(s)| <= MAX_NAME - 1
    && |Extension(s)| <= MAX_EXTENSION - 1
    && (s == [] || s[|s| - 1] != DOT)
  }

  /** A name survives the transfer exactly when it fits. */
  lemma NameRoundTrip(s: seq<Byte>)
    requires NulFree(s)
    ensures Transferred(s) == s <==> Fits(s)
  {
    var name, ext := NameOnly(s), Extension(s);
    FieldReads(name, MAX_NAME);
    FieldReads(ext, MAX_EXTENSION);
    SplitRejoins(s);
    var gotName, gotExt := ReadField(Field(name, MAX_NAME)), ReadField(Field(ext, MAX_EXTENSION));
    assert |gotName| <= |name| && |gotExt| <= |ext|;
    if !Fits(s) {
      assert |Transferred(s)| < |s|;
    }
  }

  /**
   The same for the two parts themselves: a name with a dot survives exactly when the part
   before its last dot has at most 255 bytes and the part behind it 1 to 15, and a name
   without a dot when it has at most 255.
   */
  lemma NameSurvives(base: seq<Byte>, ext: seq<Byte>)
    requires NulFree(base) && NulFree(ext) && 46 !in ext
    ensures var s := base + [46] + ext;
            Transferred(s) == s <==> |base| <= 255 && 1 <= |ext| <= 15
    ensures 46 !in base ==> (Transferred(base) == base <==> |base| <= 255)
  {
    var s := base + [46] + ext;
    assert s[|base|] == 46 && forall i :: |base| < i < |s| ==> s[i] == ext[i - |base| - 1];
    assert LastDot(s) == |base|;
    assert NameOnly(s) == base && Extension(s) == ext;
    assert NulFree(s);
    NameRoundTrip(s);
    NameRoundTrip(base);
  }

  /** `ReadFileNames`: both fields scanned byte by byte. */
  method ReadFileNames(nameField: seq<Byte>, extField: seq<Byte>) returns (name: seq<Byte>, ext: seq<Byte>)
    requires |nameField| == MAX_NAME && |extField| == MAX_EXTENSION
    ensures name == ReadField(nameField) && ext == ReadField(extField)
  {
    name := ScanField(nameField);
    ext := ScanField(extField);
  }

  method ScanField(f: seq<Byte>) returns (s: seq<Byte>)
    ensures s == ReadField(f)
  {
    s := [];
    var i := 0;
    while i < |f| && f[i] != 0
      invariant 0 <= i <= |f|
      invariant s + ReadField(f[i..]) == ReadField(f)
    {
      assert f[i..][1..] == f[i + 1..];
      s := s + [f[i]];
      i := i + 1;
    }
  }
}
