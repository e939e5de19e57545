/** server_common/filetransfer.cpp: Base64 as section 4 of RFC 4648 defines it, with the
    server's tolerance for whitespace, and the length gates that run before decoding. */
module Base64 {
  import opened Basics

  const CHUNK_BYTES := 512 * 1024

  predicate IsSpace(c: char) {
    c == ' ' || 9 <= c as int <= 13
  }

  predicate IsAlphabet(c: char) {
    'A' <= c <= 'Z' || 'a' <= c <= 'z' || '0' <= c <= '9' || c == '+' || c == '/'
  }

  function Symbol(v: int): (c: char)
    requires 0 <= v < 64
    ensures IsAlphabet(c) && !IsSpace(c) && Bits(c) == v
  {
    if v < 26 then (v + 'A' as int) as char
    else if v < 52 then (v - 26 + 'a' as int) as char
    else if v < 62 then (v - 52 + '0' as int) as char
    else if v == 62 then '+' else '/'
  }

  /** The six bits of a symbol; padding, like every other character, decodes as zero bits. */
  function Bits(c: char): (v: int)
    ensures 0 <= v < 64
  {
    if 'A' <= c <= 'Z' then c as int - 'A' as int
    else if 'a' <= c <= 'z' then c as int - 'a' as int + 26
    else if '0' <= c <= '9' then c as int - '0' as int + 52
    else if c == '+' then 62
    else if c == '/' then 63
    else 0
  }

  /** Twenty-four bits as four symbols. */
  function Group(x: byte, y: byte, z: byte): (s: string)
    ensures |s| == 4 && forall c <- s :: IsAlphabet(c) && !IsSpace(c)
  {
    [Symbol(x / 4), Symbol(x % 4 * 16 + y / 16), Symbol(y % 16 * 4 + z / 64), Symbol(z % 64)]
  }

  /** Four symbols as three octets. */
  function Ungroup(s: string): (o: seq<byte>)
    requires |s| == 4
    ensures |o| == 3
  {
    var (a, b, c, d) := (Bits(s[0]), Bits(s[1]), Bits(s[2]), Bits(s[3]));
    [a * 4 + b / 16, b % 16 * 16 + c / 4, c % 4 * 64 + d]
  }

  lemma OctetArithmetic(x: byte, y: byte, z: byte)
    ensures x / 4 * 4 + (x % 4 * 16 + y / 16) / 16 == x
    ensures (x % 4 * 16 + y / 16) % 16 * 16 + (y % 16 * 4 + z / 64) / 4 == y
    ensures (y % 16 * 4 + z / 64) % 4 * 64 + z % 64 == z
  {}

  lemma GroupBits(x: byte, y: byte, z: byte)
    ensures Bits(Group(x, y, z)[0]) == x / 4
    ensures Bits(Group(x, y, z)[1]) == x % 4 * 16 + y / 16
    ensures Bits(Group(x, y, z)[2]) == y % 16 * 4 + z / 64
    ensures Bits(Group(x, y, z)[3]) == z % 64
  {}

  /** Table 1 of RFC 4648. */
  const ALPHABET := "ABCDEFGHIJKLMNOPQRSTUVWXYZ" + "abcdefghijklmnopqrstuvwxyz" + "0123456789" + "+/"

  lemma SymbolIsTabled(v: int)
    requires 0 <= v < 64
    ensures |ALPHABET| == 64 && Symbol(v) == ALPHABET[v] && Bits(ALPHABET[v]) == v
  {
    var upper, lower, digits, rest := "ABCDEFGHIJKLMNOPQRSTUVWXYZ", "abcdefghijklmnopqrstuvwxyz", "0123456789", "+/";
    assert forall i | 0 <= i < 26 :: upper[i] == ('A' as int + i) as char;
    assert forall i | 0 <= i < 26 :: lower[i] == ('a' as int + i) as char;
    assert forall i | 0 <= i < 10 :: digits[i] == ('0' as int + i) as char;
    assert ALPHABET == upper + lower + digits + rest;
    if v < 26 {
      assert ALPHABET[v] == upper[v];
    } else if v < 52 {
      assert ALPHABET[v] == lower[v - 26];
    } else if v < 62 {
      assert ALPHABET[v] == digits[v - 52];
    } else {
      assert ALPHABET[v] == rest[v - 62];
    }
  }

  /** The 24 bits of three octets, most significant first, are those of the four symbols. */
  lemma GroupDenotes(x: byte, y: byte, z: byte)
    ensures var g := Group(x, y, z);
            ((Bits(g[0]) * 64 + Bits(g[1])) * 64 + Bits(g[2])) * 64 + Bits(g[3]) == (x * 256 + y) * 256 + z
  {
    GroupBits(x, y, z);
  }

  lemma UngroupDenotes(s: string)
    requires |s| == 4
    ensures var o := Ungroup(s);
            (o[0] as int * 256 + o[1]) * 256 + o[2]
            == ((Bits(s[0]) * 64 + Bits(s[1])) * 64 + Bits(s[2])) * 64 + Bits(s[3])
  {}

  /** Padding stands where the symbol for six zero bits would. */
  lemma UngroupGroup(x: byte, y: byte, z: byte, s: string)
    requires |s| == 4
    requires forall i | 0 <= i < 4 :: Bits(s[i]) == Bits(Group(x, y, z)[i])
    ensures Ungroup(s) == [x, y, z]
  {
    GroupBits(x, y, z);
    OctetArithmetic(x, y, z);
  }

  /** `EVP_EncodeBlock`: three octets to four symbols, the last group padded. */
  function Encode(x: seq<byte>): string {
    if x == [] then ""
    else if |x| == 1 then Group(x[0], 0, 0)[..2] + "=="
    else if |x| == 2 then Group(x[0], x[1], 0)[..3] + "="
    else Group(x[0], x[1], x[2]) + Encode(x[3..])
  }

  /** The last group of one or two octets: its unused bits are zero, and padded. */
  lemma TailIsPadded(x: byte, y: byte)
    ensures Encode([x]) == [ALPHABET[x / 4], ALPHABET[x % 4 * 16], '=', '=']
    ensures Encode([x, y]) == [ALPHABET[x / 4], ALPHABET[x % 4 * 16 + y / 16], ALPHABET[y % 16 * 4], '=']
  {
    SymbolIsTabled(x / 4);
    SymbolIsTabled(x % 4 * 16);
    SymbolIsTabled(x % 4 * 16 + y / 16);
    SymbolIsTabled(y % 16 * 4);
  }

  /** `EVP_DecodeBlock`: four symbols to three octets, padding not yet dropped. */
  function DecodeBlocks(s: string): (o: seq<byte>)
    requires |s| % 4 == 0
    ensures |o| == |s| / 4 * 3
  {
    if s == "" then [] else Ungroup(s[..4]) + DecodeBlocks(s[4..])
  }

  function Compact(s: string): string {
    if s == "" then "" else if IsSpace(s[0]) then Compact(s[1..]) else [s[0]] + Compact(s[1..])
  }

  predicate PaddedBy(s: string, padding: nat) {
    && padding <= 2 && padding <= |s|
    && (forall i | 0 <= i < |s| - padding :: IsAlphabet(s[i]))
    && (forall i | |s| - padding <= i < |s| :: s[i] == '=')
  }

  /** Acceptance: groups of four, alphabet characters, at most two `=` and those at the end. */
  ghost predicate WellFormed(s: string) {
    |s| % 4 == 0 && exists padding: nat :: PaddedBy(s, padding)
  }

  /** How the code counts padding: each of the last two characters that is `=`. */
  function Padding(s: string): nat {
    (if |s| > 0 && s[|s| - 1] == '=' then 1 else 0) + (if |s| > 1 && s[|s| - 2] == '=' then 1 else 0)
  }

  lemma WellFormedPadding(s: string)
    ensures WellFormed(s) <==> |s| % 4 == 0 && PaddedBy(s, Padding(s))
    ensures forall padding: nat | PaddedBy(s, padding) :: padding == Padding(s)
  {
    forall padding: nat | PaddedBy(s, padding)
      ensures padding == Padding(s)
    {}
  }

  /** What `decodeBase64` is to compute. */
  ghost function Decode(input: string): Option<seq<byte>> {
    var s := Compact(input);
    if WellFormed(s) then Some(DecodeBlocks(s)[..|s| / 4 * 3 - Padding(s)]) else None
  }

  /** Exactly the well-formed compact texts are accepted; an accepted text of `n` groups
      gives `3n` octets less one for each of its `padding` trailing `=`. */
  lemma DecodeAccepts(input: string, padding: nat)
    requires PaddedBy(Compact(input), padding)
    ensures Decode(input).Some? <==> |Compact(input)| % 4 == 0
    ensures Decode(input).Some? ==> |Decode(input).value| == |Compact(input)| / 4 * 3 - padding
  {
    WellFormedPadding(Compact(input));
  }

  lemma {:induction false} CompactAppend(a: string, b: string)
    ensures Compact(a + b) == Compact(a) + Compact(b)
  {
    if a == "" {
      assert a + b == b;
    } else {
      assert (a + b)[0] == a[0] && (a + b)[1..] == a[1..] + b;
      CompactAppend(a[1..], b);
    }
  }

  lemma {:induction false} CompactSpaces(w: string)
    requires forall c <- w :: IsSpace(c)
    ensures Compact(w) == ""
  {
    if w != "" {
      CompactSpaces(w[1..]);
    }
  }

  lemma {:induction false} CompactPlain(s: string)
    requires forall c <- s :: !IsSpace(c)
    ensures Compact(s) == s
  {
    if s != "" {
      CompactPlain(s[1..]);
    }
  }

  /** Whitespace inserted anywhere never changes the verdict or the octets. */
  lemma WhitespaceIrrelevant(a: string, w: string, b: string)
    requires forall c <- w :: c == ' ' || 9 <= c as int <= 13
    ensures Decode(a + w + b) == Decode(a + b)
  {
    CompactAppend(a + w, b);
    CompactAppend(a, w);
    CompactAppend(a, b);
    CompactSpaces(w);
    assert Compact(a + w + b) == Compact(a + b);
  }

  function EncodedLength(n: nat): nat {
    (n + 2) / 3 * 4
  }

  lemma LengthArithmetic(n: nat)
    ensures EncodedLength(n) % 4 == 0
    ensures EncodedLength(n) / 4 * 3 - (3 - n % 3) % 3 == n
    ensures n >= 3 ==> EncodedLength(n) == 4 + EncodedLength(n - 3) && (n - 3) % 3 == n % 3
  {}

  lemma {:induction false} EncodeLengthIs(x: seq<byte>)
    ensures |Encode(x)| == EncodedLength(|x|)
    decreases |x|
  {
    LengthArithmetic(|x|);
    if |x| >= 3 {
      EncodeLengthIs(x[3..]);
    }
  }

  lemma {:induction false} EncodeIsPadded(x: seq<byte>)
    ensures PaddedBy(Encode(x), (3 - |x| % 3) % 3)
    ensures forall c <- Encode(x) :: !IsSpace(c)
    decreases |x|
  {
    if |x| >= 3 {
      EncodeIsPadded(x[3..]);
      LengthArithmetic(|x|);
      PaddedMore(Group(x[0], x[1], x[2]), Encode(x[3..]), (3 - |x| % 3) % 3);
    }
  }

  lemma PaddedMore(group: string, rest: string, padding: nat)
    requires PaddedBy(rest, padding) && forall c <- group :: IsAlphabet(c)
    ensures PaddedBy(group + rest, padding)
  {}

  lemma DecodeStep(g: string, rest: string)
    requires |g| == 4 && |rest| % 4 == 0
    ensures DecodeBlocks(g + rest) == Ungroup(g) + DecodeBlocks(rest)
  {
    assert (g + rest)[..4] == g && (g + rest)[4..] == rest;
  }

  lemma {:induction false} BlocksRoundTrip(x: seq<byte>)
    requires |Encode(x)| % 4 == 0
    ensures x <= DecodeBlocks(Encode(x))
    decreases |x|
  {
    if |x| >= 3 {
      EncodeLengthIs(x[3..]);
      LengthArithmetic(|x| - 3);
      BlocksRoundTrip(x[3..]);
      DecodeStep(Group(x[0], x[1], x[2]), Encode(x[3..]));
      UngroupGroup(x[0], x[1], x[2], Group(x[0], x[1], x[2]));
      assert x == [x[0], x[1], x[2]] + x[3..];
    } else if x != [] {
      DecodeStep(Encode(x), "");
      assert Encode(x) + "" == Encode(x);
      var y := if |x| > 1 then x[1] else 0;
      GroupBits(x[0], y, 0);
      UngroupGroup(x[0], y, 0, Encode(x));
    }
  }

  lemma EncodeAccepted(x: seq<byte>)
    ensures Compact(Encode(x)) == Encode(x)
    ensures |Encode(x)| % 4 == 0 && PaddedBy(Encode(x), Padding(Encode(x)))
    ensures |Encode(x)| / 4 * 3 - Padding(Encode(x)) == |x|
  {
    hide Encode, Compact, PaddedBy, Padding, EncodedLength;
    EncodeLengthIs(x);
    EncodeIsPadded(x);
    CompactPlain(Encode(x));
    WellFormedPadding(Encode(x));
    LengthArithmetic(|x|);
  }

  lemma DecodeOf(s: string, x: seq<byte>)
    requires Compact(s) == s
    requires |s| % 4 == 0 && PaddedBy(s, Padding(s))
    requires |s| / 4 * 3 - Padding(s) == |x| && x <= DecodeBlocks(s)
    ensures Decode(s) == Some(x)
  {
    hide DecodeBlocks, Padding, PaddedBy, Compact;
    WellFormedPadding(s);
    assert DecodeBlocks(s)[..|x|] == x;
  }

  /** The round trip the transfer protocol rests on. */
  lemma EncodeDecode(x: seq<byte>)
    ensures Decode(Encode(x)) == Some(x)
    ensures |Encode(x)| == EncodedLength(|x|)
  {
    EncodeAccepted(x);
    EncodeLengthIs(x);
    BlocksRoundTrip(x);
    DecodeOf(Encode(x), x);
  }

  /** The whitespace-stripping loop. */
  method Strip(input: string) returns (compact: string)
    ensures compact == Compact(input)
  {
    compact := "";
    for i := 0 to |input|
      invariant compact + Compact(input[i..]) == Compact(input)
    {
      assert input[i..][1..] == input[i + 1..];
      if !IsSpace(input[i]) {
        compact := compact + [input[i]];
      }
    }
  }

  /** `decodeBase64`: strip whitespace, check, decode, drop the padding octets. */
  method DecodeBase64(input: string) returns (ok: bool, output: seq<byte>)
    ensures ok <==> Decode(input).Some?
    ensures output == if ok then Decode(input).value else []
  {
    var compact := Strip(input);
    WellFormedPadding(compact);
    if compact == "" {
      assert PaddedBy(compact, 0);
      return true, [];
    }
    if |compact| % 4 != 0 {
      return false, [];
    }
    var padding := 0;
    if compact[|compact| - 1] == '=' { padding := padding + 1; }
    if |compact| > 1 && compact[|compact| - 2] == '=' { padding := padding + 1; }
    for i := 0 to |compact|
      invariant forall k | 0 <= k < i :: IsAlphabet(compact[k]) || (compact[k] == '=' && k >= |compact| - padding)
    {
      if !IsAlphabet(compact[i]) && !(compact[i] == '=' && i >= |compact| - padding) {
        return false, [];
      }
    }
    output := DecodeBlocks(compact);
    output := output[..|output| - padding];
    ok := true;
  }

  /** `encodeBase64`. */
  method EncodeBase64(input: seq<byte>) returns (output: string)
    ensures output == Encode(input)
    ensures Decode(output) == Some(input)
  {
    EncodeDecode(input);
    if input == [] {
      return "";
    }
    output := Encode(input);
  }

  /** The pre-decode gate of a transfer chunk. */
  predicate ChunkGate(encoded: string) {
    |encoded| <= (CHUNK_BYTES + 2) / 3 * 4 + 4
  }

  /** The pre-decode gate of a bundled file when `total` octets are already accounted for. */
  predicate BundleGate(encoded: string, limit: nat, total: nat) {
    total <= limit && |encoded| <= (limit - total) / 3 * 4 + 8
  }

  /** On a canonical encoding the early gates decide nothing: gate and decoded-length check
      together accept exactly what the decoded-length check accepts. */
  lemma GatesExact(x: seq<byte>, limit: nat, total: nat)
    requires total <= limit
    ensures ChunkGate(Encode(x)) && |x| <= CHUNK_BYTES <==> |x| <= CHUNK_BYTES
    ensures BundleGate(Encode(x), limit, total) && |x| <= limit - total <==> |x| <= limit - total
  {
    EncodeDecode(x);
  }
}
