/** REALITY private keys: any accepted spelling becomes 43 unpadded base64url characters. */
module RealityKey {
  import opened Prelude
  import Text

  // ---------- characters and their values ----------

  /** The base64url character of a six-bit value (RFC 4648, section 5). */
  function UrlChar(v: nat): char
    requires v < 64
  {
    if v < 26 then ('A' as int + v) as char
    else if v < 52 then ('a' as int + (v - 26)) as char
    else if v < 62 then ('0' as int + (v - 52)) as char
    else if v == 62 then '-'
    else '_'
  }

  /** The value of a standard base64 character (RFC 4648, section 4); 64 for any other character. */
  function StdValue(c: char): (v: nat)
    ensures v <= 64
  {
    if 'A' <= c <= 'Z' then c as int - 'A' as int
    else if 'a' <= c <= 'z' then c as int - 'a' as int + 26
    else if '0' <= c <= '9' then c as int - '0' as int + 52
    else if c == '+' then 62
    else if c == '/' then 63
    else 64
  }

  function ToStdChar(c: char): char {
    if c == '-' then '+' else if c == '_' then '/' else c
  }

  /** The translation `urlsafe_b64decode` makes first. */
  function ToStd(s: string): (r: string)
    ensures |r| == |s| && forall i :: 0 <= i < |s| ==> r[i] == ToStdChar(s[i])
  {
    seq(|s|, i requires 0 <= i < |s| => ToStdChar(s[i]))
  }

  predicate IsUrlChar(c: char) {
    c != '+' && c != '/' && StdValue(ToStdChar(c)) < 64
  }

  lemma UrlCharValue(v: nat)
    requires v < 64
    ensures IsUrlChar(UrlChar(v)) && StdValue(ToStdChar(UrlChar(v))) == v
  {}

  /** The alphabet, block by block: capitals, small letters, digits, and two more characters, which differ in the
      standard one; and every value is read back as it was written. */
  lemma AlphabetIs(v: nat)
    requires v < 64
    ensures UrlChar(0) == 'A' && UrlChar(25) == 'Z' && UrlChar(26) == 'a' && UrlChar(51) == 'z'
    ensures UrlChar(52) == '0' && UrlChar(61) == '9' && UrlChar(62) == '-' && UrlChar(63) == '_'
    ensures v < 61 && v != 25 && v != 51 ==> UrlChar(v + 1) as int == UrlChar(v) as int + 1
    ensures StdValue(if v == 62 then '+' else if v == 63 then '/' else UrlChar(v)) == v
    ensures ToStdChar(UrlChar(v)) == if v == 62 then '+' else if v == 63 then '/' else UrlChar(v)
  {}

  // ---------- the decoder ----------

  /** Python's base64 decoder without strict checking: it skips foreign characters, stops at sufficient
      padding, and raises when the text ends inside a group. `quad` is the position in the group of
      four, `left` holds the bits not yet written. */
  function Scan(s: string, quad: nat, left: nat, pads: nat): Outcome<seq<nat>>
    requires quad < 4
  {
    if s == [] then (if quad == 0 then Returned([]) else Raised)
    else if s[0] == '=' then
      if quad < 2 then Scan(s[1..], quad, left, pads)
      else if quad + pads + 1 >= 4 then Returned([])
      else Scan(s[1..], quad, left, pads + 1)
    else
      var v := StdValue(s[0]);
      if v == 64 then Scan(s[1..], quad, left, pads)
      else if quad == 0 then Scan(s[1..], 1, v, 0)
      else if quad == 1 then Then(left * 4 + v / 16, Scan(s[1..], 2, v % 16, 0))
      else if quad == 2 then Then(left * 16 + v / 4, Scan(s[1..], 3, v % 4, 0))
      else Then(left * 64 + v, Scan(s[1..], 0, 0, 0))
  }

  function Then(b: nat, rest: Outcome<seq<nat>>): Outcome<seq<nat>> {
    match rest
    case Raised => Raised
    case Returned(bytes) => Returned([b] + bytes)
  }

  predicate Ascii(s: string) {
    forall c <- s :: c < '\U{80}'
  }

  /** `b64decode`: text outside ASCII raises. */
  function Decode(s: string): Outcome<seq<nat>> {
    if Ascii(s) then Scan(s, 0, 0, 0) else Raised
  }

  function Padding(m: nat): (p: string)
    ensures |p| == m && forall c <- p :: c == '='
  {
    if m == 0 then "" else ['='] + Padding(m - 1)
  }

  /** The padding the normaliser adds to text of length `n`. */
  function Pads(n: nat): string {
    Padding((4 - n % 4) % 4)
  }

  // ---------- the encoder ----------

  /** The six-bit values of a run of bytes, the last one filled with zero bits. */
  function Sextets(bytes: seq<nat>): (v: seq<nat>)
    requires IsBytes(bytes)
    ensures IsSextets(v)
  {
    if bytes == [] then []
    else
      var a := bytes[0];
      if |bytes| == 1 then [a / 4, a % 4 * 16]
      else
        var b := bytes[1];
        if |bytes| == 2 then [a / 4, a % 4 * 16 + b / 16, b % 16 * 4]
        else
          var c := bytes[2];
          [a / 4, a % 4 * 16 + b / 16, b % 16 * 4 + c / 64, c % 64] + Sextets(bytes[3..])
  }

  predicate IsSextets(v: seq<nat>) {
    forall i :: 0 <= i < |v| ==> v[i] < 64
  }

  function UrlText(v: seq<nat>): (s: string)
    requires IsSextets(v)
    ensures |s| == |v| && forall i :: 0 <= i < |v| ==> s[i] == UrlChar(v[i])
  {
    seq(|v|, i requires 0 <= i < |v| => UrlChar(v[i]))
  }

  /** `urlsafe_b64encode` with its padding stripped. */
  function Encode(bytes: seq<nat>): string
    requires IsBytes(bytes)
  {
    UrlText(Sextets(bytes))
  }

  predicate IsBytes(bytes: seq<nat>) {
    forall i :: 0 <= i < |bytes| ==> bytes[i] < 256
  }

  /** The examples of RFC 4648, section 10, for one to three bytes. */
  lemma EncodingExamples()
    ensures Encode([102]) == "Zg" && Encode([102, 111]) == "Zm8" && Encode([102, 111, 111]) == "Zm9v"
  {
    assert Sextets([102]) == [25, 32] && Sextets([102, 111]) == [25, 38, 60];
    assert [102, 111, 111][3..] == [] && Sextets([102, 111, 111]) == [25, 38, 61, 47] + [];
  }

  // ---------- the normaliser ----------

  /** `"".join(s.split())` */
  function NoSpaces(s: string): string {
    if s == [] then "" else (if Text.IsSpace(s[0]) then "" else [s[0]]) + NoSpaces(s[1..])
  }

  /** Removing white space, character by character. */
  lemma {:induction false} NoSpacesIs(a: string, b: string, c: char)
    ensures NoSpaces(a + b) == NoSpaces(a) + NoSpaces(b)
    ensures NoSpaces([c]) == if Text.IsSpace(c) then "" else [c]
  {
    assert [c][1..] == "";
    if a == [] {
      assert a + b == b;
    } else {
      NoSpacesIs(a[1..], b, c);
      assert (a + b)[0] == a[0] && (a + b)[1..] == a[1..] + b;
      var first := if Text.IsSpace(a[0]) then "" else [a[0]];
      assert NoSpaces(a + b) == first + (NoSpaces(a[1..]) + NoSpaces(b));
    }
  }

  predicate IsHexChar(c: char) {
    '0' <= c <= '9' || 'a' <= c <= 'f' || 'A' <= c <= 'F'
  }

  function HexDigit(c: char): (d: nat)
    requires IsHexChar(c)
    ensures d < 16
  {
    if c <= '9' then c as int - '0' as int
    else if c <= 'F' then c as int - 'A' as int + 10
    else c as int - 'a' as int + 10
  }

  /** `bytes.fromhex` */
  function FromHex(s: string): (bytes: seq<nat>)
    requires |s| % 2 == 0 && forall i :: 0 <= i < |s| ==> IsHexChar(s[i])
    ensures IsBytes(bytes) && |bytes| == |s| / 2
  {
    if s == [] then [] else [HexDigit(s[0]) * 16 + HexDigit(s[1])] + FromHex(s[2..])
  }

  predicate IsHexKey(s: string) {
    |s| == 64 && forall i :: 0 <= i < |s| ==> IsHexChar(s[i])
  }

  /** The 32 bytes of a key, or `Raised` for status 400. */
  function KeyBytes(s: string): Outcome<seq<nat>> {
    if IsHexKey(s) then Returned(FromHex(s))
    else
      var url := Decode(ToStd(s) + Pads(|s|));
      if url.Returned? && |url.value| == 32 then url
      else
        var std := Decode(s + Pads(|s|));
        if std.Returned? && |std.value| == 32 then std else Raised
  }

  function Normalize(key: string): Outcome<string> {
    if key == "" then Returned("")
    else
      var bytes := KeyBytes(NoSpaces(key));
      if bytes.Raised? then Raised
      else
        KeyBytesAreBytes(NoSpaces(key));
        Returned(Encode(bytes.value))
  }

  lemma {:induction false} ScanGivesBytes(s: string, quad: nat, left: nat, pads: nat)
    requires quad < 4
    requires left < (if quad == 0 then 1 else if quad == 1 then 64 else if quad == 2 then 16 else 4)
    ensures var r := Scan(s, quad, left, pads); r.Returned? ==> IsBytes(r.value)
    decreases |s|
  {
    if s != [] {
      var v := StdValue(s[0]);
      if s[0] == '=' || v == 64 {
        ScanGivesBytes(s[1..], quad, left, pads);
        ScanGivesBytes(s[1..], quad, left, pads + 1);
      } else if quad == 0 {
        ScanGivesBytes(s[1..], 1, v, 0);
      } else if quad == 1 {
        ScanGivesBytes(s[1..], 2, v % 16, 0);
      } else if quad == 2 {
        ScanGivesBytes(s[1..], 3, v % 4, 0);
      } else {
        ScanGivesBytes(s[1..], 0, 0, 0);
      }
    }
  }

  lemma KeyBytesAreBytes(s: string)
    ensures var r := KeyBytes(s); r.Returned? ==> IsBytes(r.value) && |r.value| == 32
  {
    ScanGivesBytes(ToStd(s) + Pads(|s|), 0, 0, 0);
    ScanGivesBytes(s + Pads(|s|), 0, 0, 0);
  }

  // ---------- what base64 text means ----------

  /** Four six-bit values as one 24-bit number. */
  function Number24(a: nat, b: nat, c: nat, d: nat): nat {
    ((a * 64 + b) * 64 + c) * 64 + d
  }

  /** The bytes of a run of six-bit values: each group of four is a 24-bit number of three bytes; a
      shorter last group is filled with zero bits and gives the bytes that it fills. */
  function Meaning(v: seq<nat>): seq<nat>
    requires |v| % 4 != 1
  {
    if v == [] then []
    else if |v| == 2 then [Number24(v[0], v[1], 0, 0) / 65536]
    else if |v| == 3 then
      var n := Number24(v[0], v[1], v[2], 0);
      [n / 65536, n / 256 % 256]
    else
      var n := Number24(v[0], v[1], v[2], v[3]);
      [n / 65536, n / 256 % 256, n % 256] + Meaning(v[4..])
  }

  function Values(s: string): (v: seq<nat>)
    ensures |v| == |s| && forall i :: 0 <= i < |s| ==> v[i] == StdValue(s[i])
  {
    seq(|s|, i requires 0 <= i < |s| => StdValue(s[i]))
  }

  /** One alphabet character read. */
  lemma ScanStep(c: char, rest: string, quad: nat, left: nat)
    requires quad < 4 && StdValue(c) < 64
    ensures Scan([c] + rest, quad, left, 0) ==
            if quad == 0 then Scan(rest, 1, StdValue(c), 0)
            else if quad == 1 then Then(left * 4 + StdValue(c) / 16, Scan(rest, 2, StdValue(c) % 16, 0))
            else if quad == 2 then Then(left * 16 + StdValue(c) / 4, Scan(rest, 3, StdValue(c) % 4, 0))
            else Then(left * 64 + StdValue(c), Scan(rest, 0, 0, 0))
  {
    assert ([c] + rest)[1..] == rest;
  }

  /** The three bytes of a 24-bit number. */
  lemma Bytes24(x: nat, y: nat, z: nat)
    requires x < 256 && y < 256 && z < 256
    ensures var n := x * 65536 + y * 256 + z; n / 65536 == x && n / 256 % 256 == y && n % 256 == z
  {
    var n := x * 65536 + y * 256 + z;
    assert n / 256 == x * 256 + y;
  }

  /** Reading four values one by one gives the three bytes of their number. */
  lemma GroupArithmetic(a: nat, b: nat, c: nat, d: nat)
    requires a < 64 && b < 64 && c < 64 && d < 64
    ensures var n := Number24(a, b, c, d);
            a * 4 + b / 16 == n / 65536 && b % 16 * 16 + c / 4 == n / 256 % 256 && c % 4 * 64 + d == n % 256
  {
    var p, q, r, t := b / 16, b % 16, c / 4, c % 4;
    assert b == 16 * p + q && c == 4 * r + t;
    Bytes24(a * 4 + p, q * 16 + r, t * 64 + d);
    assert Number24(a, b, c, d) == (a * 4 + p) * 65536 + (q * 16 + r) * 256 + (t * 64 + d);
  }

  lemma Collect(x: nat, y: nat, z: nat, rest: seq<nat>)
    ensures Then(x, Returned([])) == Returned([x])
    ensures Then(x, Then(y, Returned([]))) == Returned([x, y])
    ensures Then(x, Then(y, Then(z, Returned(rest)))) == Returned([x, y, z] + rest)
  {
    assert [x] + [] == [x];
    assert [y] + [] == [y];
    assert [x] + [y] == [x, y];
    assert [y] + ([z] + rest) == [y, z] + rest;
    assert [x] + ([y, z] + rest) == [x, y, z] + rest;
  }

  lemma ScanTwo(a: char, b: char, rest: string)
    requires StdValue(a) < 64 && StdValue(b) < 64
    ensures Scan([a, b] + rest, 0, 0, 0) ==
            Then(StdValue(a) * 4 + StdValue(b) / 16, Scan(rest, 2, StdValue(b) % 16, 0))
  {
    assert [a, b] + rest == [a] + ([b] + rest);
    ScanStep(a, [b] + rest, 0, 0);
    ScanStep(b, rest, 1, StdValue(a));
  }

  lemma ScanThree(a: char, b: char, c: char, rest: string)
    requires StdValue(a) < 64 && StdValue(b) < 64 && StdValue(c) < 64
    ensures Scan([a, b, c] + rest, 0, 0, 0) ==
            Then(StdValue(a) * 4 + StdValue(b) / 16,
                 Then(StdValue(b) % 16 * 16 + StdValue(c) / 4, Scan(rest, 3, StdValue(c) % 4, 0)))
  {
    assert [a, b, c] + rest == [a, b] + ([c] + rest);
    ScanTwo(a, b, [c] + rest);
    ScanStep(c, rest, 2, StdValue(b) % 16);
  }

  lemma ScanFour(a: char, b: char, c: char, d: char, rest: string)
    requires StdValue(a) < 64 && StdValue(b) < 64 && StdValue(c) < 64 && StdValue(d) < 64
    ensures Scan([a, b, c, d] + rest, 0, 0, 0) ==
            Then(StdValue(a) * 4 + StdValue(b) / 16,
                 Then(StdValue(b) % 16 * 16 + StdValue(c) / 4,
                      Then(StdValue(c) % 4 * 64 + StdValue(d), Scan(rest, 0, 0, 0))))
  {
    assert [a, b, c, d] + rest == [a, b, c] + ([d] + rest);
    ScanThree(a, b, c, [d] + rest);
    ScanStep(d, rest, 3, StdValue(c) % 4);
  }

  /** Padding after `n` characters that is enough to close their last group. */
  predicate Closes(n: nat, m: nat) {
    n % 4 == 0 || (n % 4 == 2 && m >= 2) || (n % 4 == 3 && m >= 1)
  }

  lemma PadStep(m: nat, quad: nat, left: nat, pads: nat)
    requires m > 0 && quad < 4
    ensures Scan(Padding(m), quad, left, pads) ==
            if quad < 2 then Scan(Padding(m - 1), quad, left, pads)
            else if quad + pads + 1 >= 4 then Returned([])
            else Scan(Padding(m - 1), quad, left, pads + 1)
  {
    assert Padding(m)[1..] == Padding(m - 1) && Padding(m)[0] == '=';
  }

  lemma {:induction false} ScanPads(m: nat, quad: nat, left: nat)
    requires quad < 4
    ensures Scan(Padding(m), quad, left, 0) == if Closes(quad, m) then Returned([]) else Raised
  {
    if m > 0 {
      PadStep(m, quad, left, 0);
      if quad < 2 {
        ScanPads(m - 1, quad, left);
      } else if quad == 2 && m > 1 {
        PadStep(m - 1, quad, left, 1);
      }
    }
  }

  lemma ShortMeaning(v: seq<nat>)
    ensures |v| == 2 ==> Meaning(v) == [Number24(v[0], v[1], 0, 0) / 65536]
    ensures |v| == 3 ==> var n := Number24(v[0], v[1], v[2], 0); Meaning(v) == [n / 65536, n / 256 % 256]
  {}

  /** The decoder on alphabet characters and padding: it raises when the last group is not closed, and
      gives the meaning of the values otherwise. */
  lemma {:induction false} ScanIsMeaning(s: string, m: nat)
    requires IsSextets(Values(s))
    ensures Scan(s + Padding(m), 0, 0, 0) == if Closes(|s|, m) then Returned(Meaning(Values(s))) else Raised
    decreases |s|
  {
    var v := Values(s);
    if s == [] {
      assert s + Padding(m) == Padding(m);
      ScanPads(m, 0, 0);
    } else if |s| < 4 {
      ScanEnd(s, v, s + Padding(m), m);
    } else {
      ValuesOfTail(s);
      ScanIsMeaning(s[4..], m);
      ScanStepIsMeaning(s, v, s + Padding(m), m);
    }
  }

  lemma ValuesOfTail(s: string)
    requires |s| >= 4 && IsSextets(Values(s))
    ensures Values(s)[4..] == Values(s[4..]) && IsSextets(Values(s[4..]))
  {}

  lemma ScanStepIsMeaning(s: string, v: seq<nat>, text: string, m: nat)
    requires |s| >= 4 && v == Values(s) && IsSextets(v) && text == s + Padding(m)
    requires Scan(s[4..] + Padding(m), 0, 0, 0) == if Closes(|s|, m) then Returned(Meaning(v[4..])) else Raised
    ensures Scan(text, 0, 0, 0) == if Closes(|s|, m) then Returned(Meaning(v)) else Raised
  {
    ScanMore(s, v, text, Padding(m));
    if Closes(|s|, m) {
      MeaningOfMore(v);
    }
  }

  lemma ScanMore(s: string, v: seq<nat>, text: string, tail: string)
    requires |s| >= 4 && v == Values(s) && IsSextets(v) && text == s + tail
    ensures Scan(text, 0, 0, 0) == Three(Number24(v[0], v[1], v[2], v[3]), Scan(s[4..] + tail, 0, 0, 0))
  {
    assert text == [s[0], s[1], s[2], s[3]] + (s[4..] + tail);
    assert v[0] == StdValue(s[0]) < 64 && v[1] == StdValue(s[1]) < 64;
    assert v[2] == StdValue(s[2]) < 64 && v[3] == StdValue(s[3]) < 64;
    ScanGroup(s[0], s[1], s[2], s[3], s[4..] + tail);
  }

  function Three(n: nat, rest: Outcome<seq<nat>>): Outcome<seq<nat>> {
    match rest
    case Raised => Raised
    case Returned(bytes) => Returned([n / 65536, n / 256 % 256, n % 256] + bytes)
  }

  lemma MeaningOfMore(v: seq<nat>)
    requires |v| >= 4 && |v| % 4 != 1
    ensures Three(Number24(v[0], v[1], v[2], v[3]), Returned(Meaning(v[4..]))) == Returned(Meaning(v))
  {}

  lemma ThenThree(x: nat, y: nat, z: nat, n: nat, rest: Outcome<seq<nat>>)
    requires x == n / 65536 && y == n / 256 % 256 && z == n % 256
    ensures Then(x, Then(y, Then(z, rest))) == Three(n, rest)
  {
    if rest.Returned? {
      Collect(x, y, z, rest.value);
    }
  }

  /** A group of four before any text. */
  lemma ScanGroup(a: char, b: char, c: char, d: char, rest: string)
    requires StdValue(a) < 64 && StdValue(b) < 64 && StdValue(c) < 64 && StdValue(d) < 64
    ensures Scan([a, b, c, d] + rest, 0, 0, 0) ==
            Three(Number24(StdValue(a), StdValue(b), StdValue(c), StdValue(d)), Scan(rest, 0, 0, 0))
  {
    var t, u, v, w := StdValue(a), StdValue(b), StdValue(c), StdValue(d);
    ScanFour(a, b, c, d, rest);
    GroupArithmetic(t, u, v, w);
    ThenThree(t * 4 + u / 16, u % 16 * 16 + v / 4, v % 4 * 64 + w, Number24(t, u, v, w), Scan(rest, 0, 0, 0));
  }

  lemma ScanEnd(s: string, v: seq<nat>, t: string, m: nat)
    requires 1 <= |s| <= 3 && v == Values(s) && IsSextets(v) && t == s + Padding(m)
    ensures Scan(t, 0, 0, 0) == if Closes(|s|, m) then Returned(Meaning(v)) else Raised
  {
    ShortMeaning(v);
    assert v[0] == StdValue(s[0]) < 64;
    if |s| == 1 {
      ScanStep(s[0], Padding(m), 0, 0);
      ScanPads(m, 1, v[0]);
      assert t == [s[0]] + Padding(m);
    } else if |s| == 2 {
      assert v[1] == StdValue(s[1]) < 64;
      ScanEndTwo(s[0], s[1], m);
      assert t == [s[0], s[1]] + Padding(m);
    } else {
      assert v[1] == StdValue(s[1]) < 64 && v[2] == StdValue(s[2]) < 64;
      ScanEndThree(s[0], s[1], s[2], m);
      assert t == [s[0], s[1], s[2]] + Padding(m);
    }
  }

  lemma ScanEndTwo(a: char, b: char, m: nat)
    requires StdValue(a) < 64 && StdValue(b) < 64
    ensures Scan([a, b] + Padding(m), 0, 0, 0) ==
            if m >= 2 then Returned([Number24(StdValue(a), StdValue(b), 0, 0) / 65536]) else Raised
  {
    ScanTwo(a, b, Padding(m));
    ScanPads(m, 2, StdValue(b) % 16);
    GroupArithmetic(StdValue(a), StdValue(b), 0, 0);
    Collect(StdValue(a) * 4 + StdValue(b) / 16, 0, 0, []);
  }

  lemma ScanEndThree(a: char, b: char, c: char, m: nat)
    requires StdValue(a) < 64 && StdValue(b) < 64 && StdValue(c) < 64
    ensures var n := Number24(StdValue(a), StdValue(b), StdValue(c), 0);
            Scan([a, b, c] + Padding(m), 0, 0, 0) ==
            if m >= 1 then Returned([n / 65536, n / 256 % 256]) else Raised
  {
    ScanThree(a, b, c, Padding(m));
    ScanPads(m, 3, StdValue(c) % 4);
    GroupArithmetic(StdValue(a), StdValue(b), StdValue(c), 0);
    Collect(StdValue(a) * 4 + StdValue(b) / 16, StdValue(b) % 16 * 16 + StdValue(c) / 4, 0, []);
  }

  // ---------- encoding and decoding ----------

  lemma SplitAndJoin(a: nat, b: nat, c: nat)
    requires a < 256 && b < 256 && c < 256
    ensures var n := Number24(a / 4, a % 4 * 16 + b / 16, b % 16 * 4 + c / 64, c % 64);
            n / 65536 == a && n / 256 % 256 == b && n % 256 == c
  {
    var p, q, r, t := a / 4, a % 4, b / 16, b % 16;
    assert a == 4 * p + q && b == 16 * r + t;
    Bytes24(a, b, c);
    assert c == c / 64 * 64 + c % 64;
    assert Number24(p, q * 16 + r, t * 4 + c / 64, c % 64) == a * 65536 + b * 256 + c;
  }

  /** The six-bit values of bytes mean those bytes. */
  lemma {:induction false} MeaningOfSextets(b: seq<nat>)
    requires IsBytes(b)
    ensures |Sextets(b)| == (4 * |b| + 2) / 3
    ensures |Sextets(b)| % 4 != 1 && Meaning(Sextets(b)) == b
  {
    if 1 <= |b| <= 2 {
      MeaningOfFew(b);
    } else if |b| > 2 {
      MeaningOfSextets(b[3..]);
      GroupBack(b[0], b[1], b[2], Sextets(b[3..]));
      assert b == [b[0], b[1], b[2]] + b[3..];
    }
  }

  lemma MeaningOfFew(b: seq<nat>)
    requires IsBytes(b) && 1 <= |b| <= 2
    ensures |Sextets(b)| == |b| + 1 && Meaning(Sextets(b)) == b
  {
    SplitAndJoin(b[0], if |b| == 1 then 0 else b[1], 0);
    ShortMeaning(Sextets(b));
  }

  lemma GroupBack(x: nat, y: nat, z: nat, rest: seq<nat>)
    requires x < 256 && y < 256 && z < 256 && |rest| % 4 != 1
    ensures var v := [x / 4, x % 4 * 16 + y / 16, y % 16 * 4 + z / 64, z % 64] + rest;
            |v| % 4 != 1 && Meaning(v) == [x, y, z] + Meaning(rest)
  {
    var v := [x / 4, x % 4 * 16 + y / 16, y % 16 * 4 + z / 64, z % 64] + rest;
    assert v[4..] == rest;
    SplitAndJoin(x, y, z);
  }

  /** The values with the bits that no byte takes set to zero. */
  function Canonical(v: seq<nat>): seq<nat> {
    if |v| % 4 == 2 then v[..|v| - 1] + [v[|v| - 1] / 16 * 16]
    else if |v| % 4 == 3 then v[..|v| - 1] + [v[|v| - 1] / 4 * 4]
    else v
  }

  lemma CanonicalFacts(v: seq<nat>)
    requires IsSextets(v)
    ensures |Canonical(v)| == |v| && IsSextets(Canonical(v))
  {}

  lemma JoinAndSplit(a: nat, b: nat, c: nat, d: nat)
    requires a < 64 && b < 64 && c < 64 && d < 64
    ensures var n := Number24(a, b, c, d);
            var x, y, z := n / 65536, n / 256 % 256, n % 256;
            && x < 256 && x / 4 == a && x % 4 * 16 + y / 16 == b && y % 16 * 4 + z / 64 == c && z % 64 == d
  {
    GroupArithmetic(a, b, c, d);
  }

  lemma SextetsOfTwo(v: seq<nat>)
    requires IsSextets(v) && |v| == 2
    ensures IsBytes(Meaning(v)) && |Meaning(v)| == 1 && Sextets(Meaning(v)) == Canonical(v)
  {
    ShortMeaning(v);
    var x := Number24(v[0], v[1], 0, 0) / 65536;
    JoinAndSplit(v[0], v[1], 0, 0);
    GroupArithmetic(v[0], v[1], 0, 0);
    assert Meaning(v) == [x];
    assert x % 4 * 16 == v[1] / 16 * 16;
  }

  lemma SextetsOfThree(v: seq<nat>)
    requires IsSextets(v) && |v| == 3
    ensures IsBytes(Meaning(v)) && |Meaning(v)| == 2 && Sextets(Meaning(v)) == Canonical(v)
  {
    ShortMeaning(v);
    ThreeThere(v[0], v[1], v[2]);
  }

  lemma ThreeThere(a: nat, b: nat, c: nat)
    requires a < 64 && b < 64 && c < 64
    ensures var n := Number24(a, b, c, 0);
            var x, y := n / 65536, n / 256 % 256;
            && x < 256 && y < 256
            && [x / 4, x % 4 * 16 + y / 16, y % 16 * 4] == [a, b, c / 4 * 4]
  {
    GroupArithmetic(a, b, c, 0);
    SplitPair(a, b / 16, 4);
    SplitPair(b % 16, c / 4, 16);
  }

  lemma SplitPair(hi: nat, lo: nat, base: nat)
    requires (base == 4 || base == 16) && lo < base
    ensures (hi * base + lo) / base == hi && (hi * base + lo) % base == lo
  {}

  lemma SextetsOfGroup(x: nat, y: nat, z: nat, rest: seq<nat>)
    requires x < 256 && y < 256 && z < 256 && IsBytes(rest)
    ensures IsBytes([x, y, z] + rest)
    ensures Sextets([x, y, z] + rest) == [x / 4, x % 4 * 16 + y / 16, y % 16 * 4 + z / 64, z % 64] + Sextets(rest)
  {
    var b := [x, y, z] + rest;
    assert b[0] == x && b[1] == y && b[2] == z && b[3..] == rest;
  }

  lemma GroupThere(a: nat, b: nat, c: nat, d: nat, rest: seq<nat>)
    requires a < 64 && b < 64 && c < 64 && d < 64 && IsBytes(rest)
    ensures var n := Number24(a, b, c, d);
            var m := [n / 65536, n / 256 % 256, n % 256] + rest;
            IsBytes(m) && Sextets(m) == [a, b, c, d] + Sextets(rest)
  {
    var n := Number24(a, b, c, d);
    JoinAndSplit(a, b, c, d);
    SextetsOfGroup(n / 65536, n / 256 % 256, n % 256, rest);
  }

  lemma CanonicalOfMore(v: seq<nat>)
    requires |v| > 3 && |v| % 4 != 1
    ensures Canonical(v) == [v[0], v[1], v[2], v[3]] + Canonical(v[4..])
  {}

  /** Going through bytes loses only the bits of the last value that no byte takes. */
  lemma {:induction false} SextetsOfMeaning(v: seq<nat>)
    requires IsSextets(v) && |v| % 4 != 1
    ensures IsBytes(Meaning(v)) && |Meaning(v)| == |v| * 3 / 4
    ensures Sextets(Meaning(v)) == Canonical(v)
  {
    if |v| == 2 {
      SextetsOfTwo(v);
    } else if |v| == 3 {
      SextetsOfThree(v);
    } else if |v| > 3 {
      SextetsOfMeaning(v[4..]);
      CanonicalOfMore(v);
      GroupThere(v[0], v[1], v[2], v[3], Meaning(v[4..]));
    }
  }

  lemma UrlTextFacts(v: seq<nat>)
    requires IsSextets(v)
    ensures forall c <- UrlText(v) :: IsUrlChar(c)
    ensures Values(ToStd(UrlText(v))) == v
  {
    forall i | 0 <= i < |v| ensures IsUrlChar(UrlText(v)[i]) && Values(ToStd(UrlText(v)))[i] == v[i] {
      UrlCharValue(v[i]);
    }
  }

  lemma PaddedIsAscii(s: string, n: nat)
    requires forall c <- s :: StdValue(ToStdChar(c)) < 64
    ensures Ascii(s + Pads(n)) && Ascii(ToStd(s) + Pads(n))
  {
    forall c | c in ToStd(s) ensures c < '\U{80}' {
      var i :| 0 <= i < |s| && ToStd(s)[i] == c;
      assert s[i] in s;
    }
  }

  /** Decoding what was encoded gives the bytes back. */
  lemma DecodeOfEncode(b: seq<nat>)
    requires IsBytes(b)
    ensures var k := Encode(b); Decode(ToStd(k) + Pads(|k|)) == Returned(b)
  {
    var v := Sextets(b);
    var s, m := ToStd(UrlText(v)), (4 - |v| % 4) % 4;
    UrlTextFacts(v);
    PaddedIsAscii(UrlText(v), |v|);
    assert Scan(s + Padding(m), 0, 0, 0) == Returned(b) by {
      MeaningOfSextets(b);
      ScanIsMeaning(s, m);
    }
  }

  // ---------- the normal form ----------

  lemma {:induction false} NoSpacesKeeps(s: string)
    requires forall c <- s :: !Text.IsSpace(c)
    ensures NoSpaces(s) == s
  {
    if s != [] {
      assert s[0] in s && forall c <- s[1..] :: c in s;
      NoSpacesKeeps(s[1..]);
    }
  }

  /** The encoding of 32 bytes is its own normal form. */
  lemma EncodedIsNormal(b: seq<nat>)
    requires IsBytes(b) && |b| == 32
    ensures var k := Encode(b);
            && |k| == 43
            && (forall c <- k :: 'A' <= c <= 'Z' || 'a' <= c <= 'z' || '0' <= c <= '9' || c == '-' || c == '_')
            && Decode(ToStd(k) + "=") == Returned(b)
            && Normalize(k) == Returned(k)
  {
    var k := Encode(b);
    EncodedShape(b);
    OnePad();
    DecodeOfEncode(b);
    NoSpacesKeeps(k);
    assert KeyBytes(k) == Returned(b);
  }

  lemma EncodedShape(b: seq<nat>)
    requires IsBytes(b) && |b| == 32
    ensures |Encode(b)| == 43 && forall c <- Encode(b) :: IsUrlChar(c)
  {
    MeaningOfSextets(b);
    UrlTextFacts(Sextets(b));
  }

  lemma OnePad()
    ensures Pads(43) == Padding(1) == "="
  {
    assert Padding(0) == "";
  }

  /** What any accepted key becomes: 43 base64url characters that decode to the key's 32 bytes and that
      are their own normal form. */
  lemma NormalFormIsCanonical(key: string)
    requires key != "" && Normalize(key).Returned?
    ensures var k := Normalize(key).value;
            && |k| == 43 && (forall c <- k :: IsUrlChar(c))
            && Decode(ToStd(k) + "=") == KeyBytes(NoSpaces(key))
            && Normalize(k) == Returned(k)
  {
    KeyBytesAreBytes(NoSpaces(key));
    EncodedIsNormal(KeyBytes(NoSpaces(key)).value);
  }

  /** A key with a character outside ASCII, white space aside, is refused. */
  lemma NonAsciiIsRefused(key: string, i: nat)
    requires i < |NoSpaces(key)| && NoSpaces(key)[i] >= '\U{80}'
    ensures Normalize(key) == Raised
  {
    var s := NoSpaces(key);
    assert s[i] in s + Pads(|s|) && (s + Pads(|s|))[i] == s[i];
    assert (ToStd(s) + Pads(|s|))[i] == s[i] && s[i] in ToStd(s) + Pads(|s|);
    assert key != "";
  }

  /** Each byte of a hexadecimal key is two of its digits. */
  lemma {:induction false} FromHexAt(s: string, i: nat)
    requires |s| % 2 == 0 && (forall j :: 0 <= j < |s| ==> IsHexChar(s[j])) && i < |s| / 2
    ensures FromHex(s)[i] == 16 * HexDigit(s[2 * i]) + HexDigit(s[2 * i + 1])
  {
    if i > 0 {
      FromHexAt(s[2..], i - 1);
    }
  }

  /** The hexadecimal digits, written out, and the empty key. */
  lemma HexDigitIs(d: nat)
    requires d < 16
    ensures HexDigit("0123456789abcdef"[d]) == d && HexDigit("0123456789ABCDEF"[d]) == d
    ensures Normalize("") == Returned("")
  {}

  lemma HexKeyNormalForm(key: string)
    requires IsHexKey(NoSpaces(key))
    ensures Normalize(key).Returned?
    ensures var r := Decode(ToStd(Normalize(key).value) + "=");
            && r.Returned? && |r.value| == 32
            && forall i :: 0 <= i < 32 ==>
                 r.value[i] == 16 * HexDigit(NoSpaces(key)[2 * i]) + HexDigit(NoSpaces(key)[2 * i + 1])
  {
    var s := NoSpaces(key);
    assert key != "";
    NormalFormIsCanonical(key);
    forall i | 0 <= i < 32 ensures FromHex(s)[i] == 16 * HexDigit(s[2 * i]) + HexDigit(s[2 * i + 1]) {
      FromHexAt(s, i);
    }
  }

  /** Text of the characters of the two base64 alphabets, in any mixture. */
  predicate IsAlphabetText(s: string) {
    forall c <- s :: StdValue(ToStdChar(c)) < 64
  }

  /** The characters that the standard alphabet has. */
  function StdOnly(s: string): (r: string)
    ensures forall c <- r :: StdValue(c) < 64
  {
    if s == [] then [] else (if StdValue(s[0]) < 64 then [s[0]] else []) + StdOnly(s[1..])
  }

  /** The bits that one value leaves for the next, by its place in the group. */
  function LeftOver(quad: nat, v: nat): nat {
    if quad == 0 then v else if quad == 1 then v % 16 else if quad == 2 then v % 4 else 0
  }

  /** Texts that read the same do so after one more character in front. */
  lemma SameStep(c: char, a: string, b: string, quad: nat, left: nat)
    requires quad < 4 && StdValue(c) < 64
    requires Scan(a, (quad + 1) % 4, LeftOver(quad, StdValue(c)), 0) == Scan(b, (quad + 1) % 4, LeftOver(quad, StdValue(c)), 0)
    ensures Scan([c] + a, quad, left, 0) == Scan([c] + b, quad, left, 0)
  {
    ScanStep(c, a, quad, left);
    ScanStep(c, b, quad, left);
  }

  lemma SkipStep(c: char, a: string, quad: nat, left: nat)
    requires quad < 4 && StdValue(c) == 64 && c != '='
    ensures Scan([c] + a, quad, left, 0) == Scan(a, quad, left, 0)
  {
    assert ([c] + a)[1..] == a;
  }

  /** The decoder reads text as if the foreign characters were not there. */
  lemma {:induction false} ScanSkips(s: string, tail: string, quad: nat, left: nat)
    requires quad < 4 && '=' !in s
    ensures Scan(s + tail, quad, left, 0) == Scan(StdOnly(s) + tail, quad, left, 0)
    decreases |s|
  {
    if s == [] {
      assert s + tail == tail && StdOnly(s) + tail == tail;
    } else {
      var c, rest := s[0], s[1..];
      assert c in s && forall x <- rest :: x in s;
      assert s + tail == [c] + (rest + tail);
      if StdValue(c) == 64 {
        SkipStep(c, rest + tail, quad, left);
        ScanSkips(rest, tail, quad, left);
        assert StdOnly(s) == StdOnly(rest);
      } else {
        assert StdOnly(s) + tail == [c] + (StdOnly(rest) + tail);
        ScanSkips(rest, tail, (quad + 1) % 4, LeftOver(quad, StdValue(c)));
        SameStep(c, rest + tail, StdOnly(rest) + tail, quad, left);
      }
    }
  }

  predicate IsStdText(s: string) {
    IsSextets(Values(s))
  }

  /** The base64url text of standard alphabet characters, unused bits cleared. */
  function CanonicalText(s: string): string
    requires IsStdText(s)
  {
    CanonicalFacts(Values(s));
    UrlText(Canonical(Values(s)))
  }

  /** Decoded alphabet text has 32 bytes exactly when it has 43 characters and is closed. */
  lemma KeyLength(s: string, m: nat)
    requires IsStdText(s)
    ensures var r := Scan(s + Padding(m), 0, 0, 0);
            && (r.Returned? && |r.value| == 32 <==> |s| == 43 && m >= 1)
            && (|s| == 43 && m >= 1 ==> IsBytes(r.value) && Encode(r.value) == CanonicalText(s))
  {
    ScanIsMeaning(s, m);
    if Closes(|s|, m) {
      SextetsOfMeaning(Values(s));
    }
  }

  lemma AlphabetFacts(t: string)
    requires IsAlphabetText(t)
    ensures IsStdText(ToStd(t)) && '=' !in t
  {
    assert StdValue(ToStdChar('=')) == 64;
    assert '=' !in t;
    forall i | 0 <= i < |t| ensures Values(ToStd(t))[i] < 64 {
      assert t[i] in t;
    }
  }

  lemma StdOnlyIsStd(t: string)
    ensures IsStdText(StdOnly(t))
  {
    var r := StdOnly(t);
    forall i | 0 <= i < |r| ensures Values(r)[i] < 64 {
      assert r[i] in r;
    }
  }

  lemma UrlReading(t: string)
    requires IsAlphabetText(t)
    ensures IsStdText(ToStd(t))
    ensures var url := Decode(ToStd(t) + Pads(|t|));
            && (url.Returned? && |url.value| == 32 <==> |t| == 43)
            && (|t| == 43 ==> IsBytes(url.value) && Encode(url.value) == CanonicalText(ToStd(t)))
  {
    AlphabetFacts(t);
    PaddedIsAscii(t, |t|);
    KeyLength(ToStd(t), (4 - |t| % 4) % 4);
  }

  lemma StdReading(t: string)
    requires IsAlphabetText(t)
    ensures IsStdText(StdOnly(t))
    ensures var std := Decode(t + Pads(|t|));
            var dropped := |StdOnly(t)| == 43 && |t| % 4 != 0;
            && (std.Returned? && |std.value| == 32 <==> dropped)
            && (dropped ==> IsBytes(std.value) && Encode(std.value) == CanonicalText(StdOnly(t)))
  {
    AlphabetFacts(t);
    StdOnlyIsStd(t);
    PaddedIsAscii(t, |t|);
    var m := (4 - |t| % 4) % 4;
    assert m >= 1 <==> |t| % 4 != 0;
    assert Decode(t + Pads(|t|)) == Scan(t + Padding(m), 0, 0, 0);
    StdScan(t, m);
  }

  lemma StdScan(t: string, m: nat)
    requires '=' !in t && IsStdText(StdOnly(t))
    ensures var std := Scan(t + Padding(m), 0, 0, 0);
            var dropped := |StdOnly(t)| == 43 && m >= 1;
            && (std.Returned? && |std.value| == 32 <==> dropped)
            && (dropped ==> IsBytes(std.value) && Encode(std.value) == CanonicalText(StdOnly(t)))
  {
    ScanSkips(t, Padding(m), 0, 0);
    KeyLength(StdOnly(t), m);
  }

  /** Exactly which keys made of alphabet characters are accepted, and as what: 43 characters of either
      alphabet; failing that, text of which 43 characters are in the standard alphabet, when its length
      is not a multiple of four: the `-` and `_` in it are then dropped. */
  lemma AlphabetKeyExact(key: string)
    requires key != "" && IsAlphabetText(NoSpaces(key)) && !IsHexKey(NoSpaces(key))
    ensures var t := NoSpaces(key);
            && IsStdText(ToStd(t)) && IsStdText(StdOnly(t))
            && Normalize(key) ==
               if |t| == 43 then Returned(CanonicalText(ToStd(t)))
               else if |StdOnly(t)| == 43 && |t| % 4 != 0 then Returned(CanonicalText(StdOnly(t)))
               else Raised
  {
    UrlReading(NoSpaces(key));
    StdReading(NoSpaces(key));
  }

  /** The same holds for 43 characters with their one padding character written out. */
  lemma PaddedKeyExact(key: string, t: string)
    requires NoSpaces(key) == t + "=" && |t| == 43 && IsAlphabetText(t)
    ensures IsStdText(ToStd(t)) && Normalize(key) == Returned(CanonicalText(ToStd(t)))
  {
    AlphabetFacts(t);
    PaddedUrlReading(t);
    var s := t + "=";
    assert !IsHexKey(s);
    assert key != "";
  }

  lemma PaddedUrlReading(t: string)
    requires |t| == 43 && IsAlphabetText(t)
    ensures IsStdText(ToStd(t))
    ensures var r := Decode(ToStd(t + "=") + Pads(44));
            r.Returned? && |r.value| == 32 && IsBytes(r.value) && Encode(r.value) == CanonicalText(ToStd(t))
  {
    AlphabetFacts(t);
    KeyLength(ToStd(t), 1);
    PaddedIsAscii(t, 43);
    OnePad();
    assert ToStd(t + "=") + Pads(44) == ToStd(t) + Padding(1);
  }

  /** Two 43-character keys have the same normal form exactly when they differ at most in the last
      character's two unused bits, whichever alphabet each is written in. */
  lemma SameNormalFormIff(a: string, b: string)
    requires IsAlphabetText(a) && IsAlphabetText(b) && |a| == |b| == 43
    ensures Normalize(a) == Normalize(b) <==>
      && (forall i :: 0 <= i < 42 ==> ToStdChar(a[i]) == ToStdChar(b[i]))
      && StdValue(ToStdChar(a[42])) / 4 == StdValue(ToStdChar(b[42])) / 4
  {
    NoSpacesOfAlphabet(a);
    NoSpacesOfAlphabet(b);
    AlphabetKeyExact(a);
    AlphabetKeyExact(b);
    SameCanonicalTextIff(ToStd(a), ToStd(b));
  }

  lemma SameCanonicalTextIff(a: string, b: string)
    requires |a| == |b| == 43 && IsStdText(a) && IsStdText(b)
    ensures CanonicalText(a) == CanonicalText(b) <==>
      (forall i :: 0 <= i < 42 ==> a[i] == b[i]) && StdValue(a[42]) / 4 == StdValue(b[42]) / 4
  {
    var v, w := Values(a), Values(b);
    CanonicalFacts(v);
    CanonicalFacts(w);
    UrlTextFacts(Canonical(v));
    UrlTextFacts(Canonical(w));
    SameCanonicalIff(v, w);
    forall i | 0 <= i < 42 ensures v[i] == w[i] <==> a[i] == b[i] {
      assert v[i] < 64 && w[i] < 64;
      StdValueIsInjective(a[i], b[i]);
    }
  }

  lemma SameCanonicalIff(v: seq<nat>, w: seq<nat>)
    requires |v| == |w| == 43
    ensures Canonical(v) == Canonical(w) <==> (forall i :: 0 <= i < 42 ==> v[i] == w[i]) && v[42] / 4 == w[42] / 4
  {
    var c, d := Canonical(v), Canonical(w);
    assert c[42] == v[42] / 4 * 4 && d[42] == w[42] / 4 * 4;
    assert forall i :: 0 <= i < 42 ==> c[i] == v[i] && d[i] == w[i];
  }

  lemma StdValueIsInjective(c: char, d: char)
    requires StdValue(c) < 64 && StdValue(d) < 64
    ensures StdValue(c) == StdValue(d) <==> c == d
  {}

  lemma NoSpacesOfAlphabet(s: string)
    requires IsAlphabetText(s)
    ensures NoSpaces(s) == s
  {
    NoSpacesKeeps(s);
  }
}
