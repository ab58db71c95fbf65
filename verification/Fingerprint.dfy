/**
 Certificate fingerprints as they stand in an SDP: the name of a hash function, a space and
 the digest bytes as upper case hex pairs with colons between (section 5 of RFC 8122).
 */
module Fingerprints {
  import opened Prelude

  type Byte = n: int | 0 <= n < 256

  datatype Fingerprint = Fingerprint(hashFunc: string, bytes: seq<Byte>)

  // ---- Printing ----

  function HexDigit(d: int): (c: char)
    requires 0 <= d < 16
    ensures HexValue(c) == Some(d) && c != ':' && c != '+' && c != ' '
  {
    if d < 10 then '0' + d as char else 'A' + (d - 10) as char
  }

  function HexByte(b: Byte): string {
    [HexDigit(b / 16), HexDigit(b % 16)]
  }

  function PrintBytes(bytes: seq<Byte>): string {
    if bytes == [] then ""
    else if |bytes| == 1 then HexByte(bytes[0])
    else HexByte(bytes[0]) + ":" + PrintBytes(bytes[1..])
  }

  function Print(f: Fingerprint): string {
    f.hashFunc + " " + PrintBytes(f.bytes)
  }

  // ---- Parsing ----

  function HexValue(c: char): (r: Option<int>)
    ensures r.Some? ==> 0 <= r.value < 16
  {
    if '0' <= c <= '9' then Some(c as int - '0' as int)
    else if 'a' <= c <= 'f' then Some(c as int - 'a' as int + 10)
    else if 'A' <= c <= 'F' then Some(c as int - 'A' as int + 10)
    else None
  }

  // Reads hex digits most significant first; None on a bad digit or a value above 255.
  function HexDigits(s: string, acc: Byte): Option<Byte> {
    if s == "" then Some(acc) else
      var d := HexValue(s[0]);
      if d.None? || acc * 16 + d.value > 255 then None
      else HexDigits(s[1..], acc * 16 + d.value)
  }

  // An optional plus sign, then at least one digit.
  function ParseHex(s: string): Option<Byte> {
    if s == "" || s == "+" then None
    else if s[0] == '+' then HexDigits(s[1..], 0)
    else HexDigits(s, 0)
  }

  function IndexOf(s: string, c: char): (r: nat)
    ensures r <= |s|
    ensures forall i :: 0 <= i < r ==> s[i] != c
    ensures r < |s| ==> s[r] == c
  {
    if s == "" || s[0] == c then 0 else 1 + IndexOf(s[1..], c)
  }

  // The pieces between colons; never empty, since no colon leaves the whole string.
  function Split(s: string): (parts: seq<string>)
    ensures |parts| >= 1
    decreases |s|
  {
    var k := IndexOf(s, ':');
    if k == |s| then [s] else [s[..k]] + Split(s[k + 1..])
  }

  function ParseBytes(parts: seq<string>): (r: Option<seq<Byte>>)
    ensures r.Some? ==> |r.value| == |parts|
  {
    if parts == [] then Some([]) else
      var b := ParseHex(parts[0]);
      if b.None? then None else
        var rest := ParseBytes(parts[1..]);
        if rest.None? then None else Some([b.value] + rest.value)
  }

  function Parse(s: string): Option<Fingerprint> {
    var k := IndexOf(s, ' ');
    if k == |s| then None else
      var bytes := ParseBytes(Split(s[k + 1..]));
      if bytes.None? then None else Some(Fingerprint(s[..k], bytes.value))
  }

  // ---- Round trips ----

  lemma HexRoundTrip(b: Byte)
    ensures ParseHex(HexByte(b)) == Some(b)
  {
    var s := HexByte(b);
    assert s[1..] == [HexDigit(b % 16)] && s[1..][1..] == "";
    assert HexDigits(s[1..], b / 16) == Some(b);
    assert HexDigits(s, 0) == Some(b);
  }

  lemma IndexOfFirst(s: string, c: char, k: nat)
    requires k <= |s| && (forall i :: 0 <= i < k ==> s[i] != c) && (k < |s| ==> s[k] == c)
    ensures IndexOf(s, c) == k
  {
    var r := IndexOf(s, c);
    assert !(r < k) && !(k < r);
  }

  lemma {:induction false} BytesRoundTrip(bytes: seq<Byte>)
    requires bytes != []
    ensures ParseBytes(Split(PrintBytes(bytes))) == Some(bytes)
  {
    var s, b := PrintBytes(bytes), bytes[0];
    HexRoundTrip(b);
    if |bytes| == 1 {
      IndexOfFirst(s, ':', 2);
      var parts := [HexByte(b)];
      assert Split(s) == parts && parts[1..] == [];
      assert ParseBytes(parts) == Some([b] + []);
      assert bytes == [b] + [];
    } else {
      IndexOfFirst(s, ':', 2);
      assert s[..2] == HexByte(b) && s[3..] == PrintBytes(bytes[1..]);
      var parts := Split(s[3..]);
      assert Split(s) == [HexByte(b)] + parts;
      assert ([HexByte(b)] + parts)[1..] == parts;
      BytesRoundTrip(bytes[1..]);
      assert bytes == [b] + bytes[1..];
    }
  }

  /** Printing then parsing returns the fingerprint exactly when it has bytes and no space in its name. */
  lemma {:induction false} PrintParse(f: Fingerprint)
    ensures Parse(Print(f)) == Some(f) <==> f.bytes != [] && ' ' !in f.hashFunc
  {
    var s, n := Print(f), |f.hashFunc|;
    assert s[n] == ' ' && forall i :: 0 <= i < n ==> s[i] == f.hashFunc[i];
    if ' ' in f.hashFunc {
      var i :| 0 <= i < n && f.hashFunc[i] == ' ';
      var k := IndexOf(s, ' ');
      assert k <= i by {
        assert s[i] == ' ';
      }
      assert |s[..k]| < n;
    } else {
      IndexOfFirst(s, ' ', n);
      assert s[..n] == f.hashFunc && s[n + 1..] == PrintBytes(f.bytes);
      if f.bytes == [] {
        assert Split("") == [""];
        assert ParseBytes([""]).None?;
      } else {
        BytesRoundTrip(f.bytes);
      }
    }
  }

  /** Parsing again what was printed from a parsed fingerprint changes nothing. */
  lemma {:induction false} ParsePrintParse(s: string)
    requires Parse(s).Some?
    ensures Parse(Print(Parse(s).value)) == Parse(s)
  {
    var f, k := Parse(s).value, IndexOf(s, ' ');
    assert ' ' !in f.hashFunc by {
      forall i | 0 <= i < k ensures f.hashFunc[i] != ' ' {}
    }
    PrintParse(f);
  }

  // ---- The loops ----

  /** Writes a fingerprint piece by piece. */
  method Display(f: Fingerprint) returns (out: string)
    ensures out == Print(f)
  {
    out := f.hashFunc + " ";
    for i := 0 to |f.bytes|
      invariant out == f.hashFunc + " " + PrintBytes(f.bytes[..i])
    {
      PrintSnoc(f.bytes[..i], f.bytes[i]);
      assert f.bytes[..i + 1] == f.bytes[..i] + [f.bytes[i]];
      if i > 0 {
        out := out + ":";
      }
      out := out + HexByte(f.bytes[i]);
    }
    assert f.bytes[..|f.bytes|] == f.bytes;
  }

  lemma {:induction false} PrintSnoc(bytes: seq<Byte>, b: Byte)
    ensures PrintBytes(bytes + [b]) == PrintBytes(bytes) + (if bytes == [] then "" else ":") + HexByte(b)
  {
    if |bytes| == 1 {
      assert (bytes + [b])[1..] == [b];
    } else if |bytes| > 1 {
      assert (bytes + [b])[1..] == bytes[1..] + [b];
      PrintSnoc(bytes[1..], b);
    }
  }

  /** Reads a fingerprint, collecting its bytes one piece at a time. */
  method FromStr(s: string) returns (r: Option<Fingerprint>)
    ensures r == Parse(s)
  {
    var k := FindChar(s, ' ');
    if k == |s| {
      return None;
    }
    var bytes: seq<Byte> := [];
    var parts := Split(s[k + 1..]);
    assert parts[0..] == parts;
    assert forall xs: seq<Byte> :: [] + xs == xs;
    for i := 0 to |parts|
      invariant var rest := ParseBytes(parts[i..]);
                ParseBytes(parts) == if rest.None? then None else Some(bytes + rest.value)
    {
      assert parts[i..][0] == parts[i] && parts[i..][1..] == parts[i + 1..];
      var b := ParseHex(parts[i]);
      if b.None? {
        return None;
      }
      ghost var rest := ParseBytes(parts[i + 1..]);
      assert rest.Some? ==> bytes + ([b.value] + rest.value) == bytes + [b.value] + rest.value;
      bytes := bytes + [b.value];
    }
    assert ParseBytes(parts[|parts|..]) == Some([]) && bytes + [] == bytes;
    r := Some(Fingerprint(s[..k], bytes));
  }

  method FindChar(s: string, c: char) returns (k: nat)
    ensures k == IndexOf(s, c)
  {
    k := 0;
    while k < |s| && s[k] != c
      invariant k <= |s|
      invariant forall i :: 0 <= i < k ==> s[i] != c
    {
      k := k + 1;
    }
    IndexOfFirst(s, c, k);
  }
}
