/**
  The framing under `files_fingerprint` (engine/evals/cases.py): each file enters the
  hash as an 8-byte big-endian length, its name, a NUL, its bytes.
 */
module Fingerprint {
  import opened Wrappers

  type Byte = b: int | 0 <= b < 256
  type Bytes = seq<Byte>

  datatype File = File(name: Bytes, data: Bytes)

  const WORD: nat := 0x1_0000_0000_0000_0000

  function Power256(k: nat): (p: nat)
    ensures p > 0
  {
    if k == 0 then 1 else 256 * Power256(k - 1)
  }

  /** `n.to_bytes(k, "big")` for n below 256^k. */
  function BigEndian(n: nat, k: nat): (bytes: Bytes)
    requires n < Power256(k)
    ensures |bytes| == k
  {
    if k == 0 then [] else BigEndian(n / 256, k - 1) + [n % 256]
  }

  function Number(bytes: Bytes): (n: nat)
    ensures n < Power256(|bytes|)
  {
    if bytes == [] then 0 else 256 * Number(bytes[..|bytes| - 1]) + bytes[|bytes| - 1]
  }

  lemma {:induction false} NumberOfBigEndian(n: nat, k: nat)
    requires n < Power256(k)
    ensures Number(BigEndian(n, k)) == n
  {
    if k > 0 {
      NumberOfBigEndian(n / 256, k - 1);
      assert BigEndian(n, k)[..k - 1] == BigEndian(n / 256, k - 1);
    }
  }

  lemma {:induction false} BigEndianOfNumber(bytes: Bytes)
    ensures BigEndian(Number(bytes), |bytes|) == bytes
  {
    if bytes != [] {
      var init := bytes[..|bytes| - 1];
      BigEndianOfNumber(init);
      assert Number(bytes) / 256 == Number(init) && Number(bytes) % 256 == bytes[|bytes| - 1];
      assert bytes == init + [bytes[|bytes| - 1]];
    }
  }

  lemma WordIsEightBytes()
    ensures Power256(8) == WORD
  {
    assert Power256(4) == 0x1_0000_0000;
  }

  function Prefix(n: nat): (bytes: Bytes)
    requires n < WORD
    ensures |bytes| == 8
  {
    WordIsEightBytes();
    BigEndian(n, 8)
  }

  predicate Framable(file: File) { |file.data| < WORD }

  function Frame(file: File): Bytes
    requires Framable(file)
  {
    Prefix(|file.data|) + file.name + [0] + file.data
  }

  function Stream(files: seq<File>): Bytes
    requires forall k | 0 <= k < |files| :: Framable(files[k])
  {
    if files == [] then [] else Frame(files[0]) + Stream(files[1..])
  }

  /** The bytes fed to the hash; a file of 2^64 bytes or more overflows the length word. */
  method HashedBytes(files: seq<File>) returns (r: Result<Bytes, nat>)
    ensures r.Ok? <==> forall k | 0 <= k < |files| :: Framable(files[k])
    ensures r.Ok? ==> r.value == Stream(files)
    ensures r.Raised? ==> r.why < |files| && !Framable(files[r.why])
                          && forall k | 0 <= k < r.why :: Framable(files[k])
  {
    var digest: Bytes := [];
    var i := 0;
    while i < |files|
      invariant 0 <= i <= |files|
      invariant forall k | 0 <= k < i :: Framable(files[k])
      invariant digest == Stream(files[..i])
    {
      var file := files[i];
      if |file.data| >= WORD { return Raised(i); }
      digest := digest + Prefix(|file.data|);
      digest := digest + file.name;
      digest := digest + [0];
      digest := digest + file.data;
      StreamAppend(files[..i], file);
      assert files[..i + 1] == files[..i] + [file];
      i := i + 1;
    }
    assert files[..|files|] == files;
    return Ok(digest);
  }

  lemma {:induction false} StreamPush(files: seq<File>, file: File)
    requires Framable(file) && forall k | 0 <= k < |files| :: Framable(files[k])
    ensures Stream(files + [file]) == Stream(files) + Frame(file)
  {
    if files == [] {
      assert files + [file] == [file];
      assert Stream([file]) == Frame(file) + Stream([file][1..]);
    } else {
      StreamPush(files[1..], file);
      assert (files + [file])[1..] == files[1..] + [file];
      assert (files + [file])[0] == files[0];
      Assoc(Frame(files[0]), Stream(files[1..]), Frame(file));
    }
  }

  lemma StreamAppend(files: seq<File>, file: File)
    requires Framable(file) && forall k | 0 <= k < |files| :: Framable(files[k])
    ensures Stream(files + [file])
         == Stream(files) + Prefix(|file.data|) + file.name + [0] + file.data
  {
    StreamPush(files, file);
    var start, length := Stream(files), Prefix(|file.data|);
    Assoc(start, length, file.name);
    Assoc(start, length + file.name, [0]);
    Assoc(start, length + file.name + [0], file.data);
  }

  // ------------------------------------------------------------- the decoder

  function FirstNul(bytes: Bytes): (cut: nat)
    ensures cut <= |bytes|
    ensures cut < |bytes| ==> bytes[cut] == 0
    ensures 0 !in bytes[..cut]
  {
    if bytes == [] || bytes[0] == 0 then 0
    else
      var cut := FirstNul(bytes[1..]);
      assert bytes[..cut + 1] == [bytes[0]] + bytes[1..][..cut];
      cut + 1
  }

  /** The frame at the front of a non-empty stream, and how long it is. */
  function FirstFrame(bytes: Bytes): (r: Option<(File, nat)>)
    ensures r.Some? ==> 9 <= r.value.1 <= |bytes|
  {
    if |bytes| < 8 then None
    else
      var size, rest := Number(bytes[..8]), bytes[8..];
      var cut := FirstNul(rest);
      if cut == |rest| || |rest| - cut - 1 < size then None
      else Some((File(rest[..cut], rest[cut + 1..][..size]), 8 + cut + 1 + size))
  }

  function Decode(bytes: Bytes): Option<seq<File>>
    decreases |bytes|
  {
    if bytes == [] then Some([])
    else
      match FirstFrame(bytes)
      case None => None
      case Some((file, used)) =>
        match Decode(bytes[used..])
        case None => None
        case Some(files) => Some([file] + files)
  }

  /** What a roster holds: a file name never contains NUL. */
  predicate Roster(files: seq<File>) {
    forall k | 0 <= k < |files| :: Framable(files[k]) && 0 !in files[k].name
  }

  lemma FirstFrameOfFrame(file: File, tail: Bytes)
    requires Framable(file) && 0 !in file.name
    ensures FirstFrame(Frame(file) + tail) == Some((file, |Frame(file)|))
  {
    WordIsEightBytes();
    NumberOfBigEndian(|file.data|, 8);
    var bytes := Frame(file) + tail;
    var rest := bytes[8..];
    assert bytes[..8] == Prefix(|file.data|);
    assert rest == file.name + [0] + file.data + tail;
    assert rest[|file.name|] == 0;
    assert forall k | 0 <= k < |file.name| :: rest[k] == file.name[k];
    var cut := FirstNul(rest);
    assert rest[..cut] == file.name;
    assert rest[cut + 1..][..|file.data|] == file.data;
  }

  /** Every roster is recovered from its stream. */
  lemma {:induction false} DecodeOfStream(files: seq<File>)
    requires Roster(files)
    ensures Decode(Stream(files)) == Some(files)
  {
    if files != [] {
      var tail := Stream(files[1..]);
      FirstFrameOfFrame(files[0], tail);
      DecodeOfStream(files[1..]);
      assert Stream(files)[|Frame(files[0])|..] == tail;
      assert [files[0]] + files[1..] == files;
    }
  }

  lemma FrameOfFirstFrame(bytes: Bytes)
    requires FirstFrame(bytes).Some?
    ensures var (file, used) := FirstFrame(bytes).value;
            Framable(file) && 0 !in file.name && bytes[..used] == Frame(file)
  {
    WordIsEightBytes();
    BigEndianOfNumber(bytes[..8]);
    var size, rest := Number(bytes[..8]), bytes[8..];
    var cut := FirstNul(rest);
    var (file, used) := FirstFrame(bytes).value;
    assert Prefix(|file.data|) == bytes[..8];
    assert bytes[..used] == bytes[..8] + rest[..cut + 1 + size];
    assert rest[..cut + 1 + size] == rest[..cut] + [0] + rest[cut + 1..][..size];
  }

  /** The decoder accepts only streams of rosters, so decoding and framing are inverse. */
  lemma {:induction false} StreamOfDecode(bytes: Bytes)
    requires Decode(bytes).Some?
    ensures Roster(Decode(bytes).value)
    ensures Stream(Decode(bytes).value) == bytes
    decreases |bytes|
  {
    if bytes != [] {
      var (file, used) := FirstFrame(bytes).value;
      FrameOfFirstFrame(bytes);
      StreamOfDecode(bytes[used..]);
      var files := Decode(bytes).value;
      assert files[1..] == Decode(bytes[used..]).value;
      assert bytes == bytes[..used] + bytes[used..];
    }
  }

  /** Two rosters with one stream are one roster. */
  lemma StreamInjective(files: seq<File>, others: seq<File>)
    requires Roster(files) && Roster(others) && Stream(files) == Stream(others)
    ensures files == others
  {
    DecodeOfStream(files);
    DecodeOfStream(others);
  }
}
