/** The on-disk shape of the policy: what a record keeps across restarts, and the salt's hex form. */
module PolicyStore {
  import opened Text
  import opened Records

  type Byte = b: nat | b < 256

  /** A record as stored: the live stream and the observed size are not kept. */
  datatype Stored = Stored(host: string, mode: nat, hashes: seq<Permitted>, count: nat, unlimited: bool)

  datatype StoredSecret = StoredSecret(name: string, stored: Stored)

  /** The salt's text is its UTF-8 form, one character for each byte. */
  datatype PolicyFile = PolicyFile(lockdown: bool, salt: string, secrets: seq<StoredSecret>)

  function Project(rec: Rec): Stored {
    Stored(rec.host, rec.mode, rec.hashes, rec.count, rec.unlimited)
  }

  function ProjectAll(secrets: map<string, Rec>): map<string, Stored> {
    map name | name in secrets :: Project(secrets[name])
  }

  /** A stored record brought back to life around a freshly observed host file. */
  function Revive(stored: Stored, size: Usize): Rec {
    Rec(stored.host, size, stored.hashes, stored.count, None, 0, stored.mode, stored.unlimited)
  }

  /** The names a file holds; of two entries under one name the later one counts. */
  function Contents(entries: seq<StoredSecret>): map<string, Stored> {
    if entries == [] then map[]
    else
      var last := entries[|entries| - 1];
      Contents(entries[..|entries| - 1])[last.name := last.stored]
  }

  /** The regular host files that are there, with their current sizes. A missing file leaves a ghost of size zero. */
  type HostSizes = map<string, Usize>

  function SizeOf(sizes: HostSizes, host: string): Usize {
    if host in sizes then sizes[host] else 0
  }

  function ReviveAll(stored: map<string, Stored>, sizes: HostSizes): map<string, Rec> {
    map name | name in stored :: Revive(stored[name], SizeOf(sizes, stored[name].host))
  }

  /** What storing and loading keep of a record: everything but its stream, with the size observed anew. */
  function Restarted(secrets: map<string, Rec>, sizes: HostSizes): map<string, Rec> {
    map name | name in secrets :: Reloaded(secrets[name], SizeOf(sizes, secrets[name].host))
  }

  lemma ReviveProjectAll(secrets: map<string, Rec>, sizes: HostSizes)
    ensures ReviveAll(ProjectAll(secrets), sizes) == Restarted(secrets, sizes)
    ensures ProjectAll(Restarted(secrets, sizes)) == ProjectAll(secrets)
  {
  }

  // ── hex ────────────────────────────────────────────────────────

  function HexDigit(d: nat): char
    requires d < 16
  {
    "0123456789abcdef"[d]
  }

  /** A digit of either case. */
  function DigitValue(c: char): Option<nat> {
    if '0' <= c <= '9' then Some((c - '0') as int)
    else if 'a' <= c <= 'f' then Some((c - 'a') as int + 10)
    else if 'A' <= c <= 'F' then Some((c - 'A') as int + 10)
    else None
  }

  /** Two characters read as an unsigned number in base 16; a leading plus sign is allowed, as the parser allows it. */
  function PairValue(a: char, b: char): Option<Byte> {
    var high := if a == '+' then Some(0) else DigitValue(a);
    var low := DigitValue(b);
    if high.Some? && low.Some? && high.value < 16 && low.value < 16 then Some(16 * high.value + low.value) else None
  }

  function BytesToHex(bytes: seq<Byte>): (h: string)
    ensures |h| == 2 * |bytes|
  {
    if bytes == [] then ""
    else [HexDigit(bytes[0] / 16), HexDigit(bytes[0] % 16)] + BytesToHex(bytes[1..])
  }

  /** Unreadable pairs and a trailing odd character are skipped. */
  function HexToBytes(h: string): seq<Byte> {
    if |h| < 2 then []
    else
      var rest := HexToBytes(h[2..]);
      match PairValue(h[0], h[1])
      case Some(b) => [b] + rest
      case None => rest
  }

  /** A digit of value `d`, in either case. */
  predicate Digit(c: char, d: nat) {
    d < 16 && (c == "0123456789abcdef"[d] || c == "0123456789ABCDEF"[d])
  }

  /** Two digits stand for a byte, and so does a digit behind a plus sign. */
  ghost predicate Reads(a: char, b: char, v: nat) {
    (exists high: nat, low: nat :: Digit(a, high) && Digit(b, low) && v == 16 * high + low) || (a == '+' && Digit(b, v))
  }

  lemma DigitValueIsDigit(c: char, d: nat)
    ensures DigitValue(c) == Some(d) <==> Digit(c, d)
  {
    if Digit(c, d) {
      assert DigitValue(c) == Some(d);
    }
    if DigitValue(c).Some? {
      var v := DigitValue(c).value;
      if c <= '9' {
        assert "0123456789abcdef"[v] == c;
      } else if c <= 'F' {
        assert "0123456789ABCDEF"[v] == c;
      } else {
        assert "0123456789abcdef"[v] == c;
      }
    }
  }

  /** A pair is read exactly when it stands for a byte, and as that byte. */
  lemma PairReads(a: char, b: char, v: nat)
    ensures PairValue(a, b) == Some(v) <==> Reads(a, b, v)
  {
    forall d: nat ensures DigitValue(a) == Some(d) <==> Digit(a, d) {
      DigitValueIsDigit(a, d);
    }
    forall d: nat ensures DigitValue(b) == Some(d) <==> Digit(b, d) {
      DigitValueIsDigit(b, d);
    }
    assert !Digit('+', 0) && DigitValue('+').None?;
    if PairValue(a, b) == Some(v) && a != '+' {
      assert Digit(a, DigitValue(a).value) && Digit(b, DigitValue(b).value);
    }
    if Reads(a, b, v) && a != '+' {
      var high: nat, low: nat :| Digit(a, high) && Digit(b, low) && v == 16 * high + low;
    }
  }

  /** A text is decoded pair by pair: what stands for a byte gives that byte, any other pair nothing. */
  lemma {:induction false} HexDecodesPairwise(front: string, a: char, b: char)
    requires |front| % 2 == 0
    ensures forall v: Byte :: Reads(a, b, v) ==> HexToBytes(front + [a, b]) == HexToBytes(front) + [v]
    ensures (forall v: nat :: !Reads(a, b, v)) ==> HexToBytes(front + [a, b]) == HexToBytes(front)
    ensures HexToBytes(front + [a]) == HexToBytes(front) && HexToBytes("") == []
  {
    forall v: nat ensures PairValue(a, b) == Some(v) <==> Reads(a, b, v) {
      PairReads(a, b, v);
    }
    if front == "" {
      assert front + [a, b] == [a, b] && [a, b][2..] == "" && front + [a] == [a];
    } else {
      assert (front + [a, b])[2..] == front[2..] + [a, b] && (front + [a])[2..] == front[2..] + [a];
      HexDecodesPairwise(front[2..], a, b);
    }
  }

  /** A byte in the middle of a character that takes several. */
  predicate InsideCharacter(c: char) {
    0x80 <= c as int < 0xC0
  }

  /** No cut between two pairs falls inside a character; otherwise taking the pairs apart ends the process. */
  predicate Sliceable(h: string) {
    |h| >= 2 ==> forall i :: 0 <= i <= |h| / 2 && 2 * i < |h| ==> !InsideCharacter(h[2 * i])
  }

  /** A digit and a character of two bytes: the second pair starts inside the character. */
  lemma SplitCharacterEndsProcess(h: string)
    requires |h| == 3 && h[0] == '0' && h[1] as int == 0xC3 && h[2] as int == 0xA9
    ensures !Sliceable(h)
  {
    assert InsideCharacter(h[2 * 1]);
  }

  predicate IsLowerHex(h: string) {
    && |h| % 2 == 0
    && forall c :: c in h ==> '0' <= c <= '9' || 'a' <= c <= 'f'
  }

  lemma DigitRoundTrip(d: nat)
    requires d < 16
    ensures DigitValue(HexDigit(d)) == Some(d)
    ensures '0' <= HexDigit(d) <= '9' || 'a' <= HexDigit(d) <= 'f'
  {
  }

  lemma DigitValueRoundTrip(c: char)
    requires '0' <= c <= '9' || 'a' <= c <= 'f'
    ensures DigitValue(c).Some? && DigitValue(c).value < 16 && HexDigit(DigitValue(c).value) == c
  {
  }

  /** Decoding undoes encoding on every byte string. */
  lemma {:induction false} HexDecodesEncoding(bytes: seq<Byte>)
    ensures HexToBytes(BytesToHex(bytes)) == bytes
  {
    if bytes != [] {
      var h := BytesToHex(bytes);
      DigitRoundTrip(bytes[0] / 16);
      DigitRoundTrip(bytes[0] % 16);
      assert h[2..] == BytesToHex(bytes[1..]);
      HexDecodesEncoding(bytes[1..]);
    }
  }

  /** A text can be decoded, and encoding gives it back, exactly when it is lower-case hex of even length. */
  lemma HexEncodesDecoding(h: string)
    ensures Sliceable(h) && BytesToHex(HexToBytes(h)) == h <==> IsLowerHex(h)
    ensures BytesToHex(HexToBytes(h)) == h ==> Sliceable(h)
  {
    EncodingIsLowerHex(HexToBytes(h));
    if IsLowerHex(h) {
      LowerHexIsEncoding(h);
      LowerHexSlices(h);
    }
  }

  lemma LowerHexSlices(h: string)
    requires IsLowerHex(h)
    ensures Sliceable(h)
  {
    forall i | 0 <= i <= |h| / 2 && 2 * i < |h| ensures !InsideCharacter(h[2 * i]) {
      assert h[2 * i] in h;
    }
  }

  lemma {:induction false} EncodingIsLowerHex(bytes: seq<Byte>)
    ensures IsLowerHex(BytesToHex(bytes))
  {
    if bytes != [] {
      DigitRoundTrip(bytes[0] / 16);
      DigitRoundTrip(bytes[0] % 16);
      EncodingIsLowerHex(bytes[1..]);
    }
  }

  predicate IsLowerDigit(c: char) {
    '0' <= c <= '9' || 'a' <= c <= 'f'
  }

  lemma PairRoundTrip(a: char, b: char)
    requires IsLowerDigit(a) && IsLowerDigit(b)
    ensures PairValue(a, b).Some?
    ensures HexDigit(PairValue(a, b).value / 16) == a && HexDigit(PairValue(a, b).value % 16) == b
  {
    DigitValueRoundTrip(a);
    DigitValueRoundTrip(b);
    var high, low := DigitValue(a).value, DigitValue(b).value;
    assert PairValue(a, b) == Some(16 * high + low);
    NibblesApart(high, low);
  }

  lemma NibblesApart(high: nat, low: nat)
    requires high < 16 && low < 16
    ensures (16 * high + low) / 16 == high && (16 * high + low) % 16 == low
  {
  }

  lemma EncodeOne(b: Byte, rest: seq<Byte>)
    ensures BytesToHex([b] + rest) == [HexDigit(b / 16), HexDigit(b % 16)] + BytesToHex(rest)
  {
    assert ([b] + rest)[1..] == rest;
  }

  lemma {:induction false} LowerHexIsEncoding(h: string)
    requires IsLowerHex(h)
    ensures BytesToHex(HexToBytes(h)) == h
  {
    if h != "" {
      assert h[0] in h && h[1] in h;
      PairRoundTrip(h[0], h[1]);
      assert forall c :: c in h[2..] ==> c in h;
      LowerHexIsEncoding(h[2..]);
      EncodeOne(PairValue(h[0], h[1]).value, HexToBytes(h[2..]));
      assert h == [h[0], h[1]] + h[2..];
    }
  }
}
