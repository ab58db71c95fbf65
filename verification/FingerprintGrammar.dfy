/** Which strings stand for which fingerprint, and exactly what is printed for one. */
module FingerprintGrammar {
  import opened Prelude
  import opened Fingerprints

  // ---- Printing ----

  /** An upper case hex digit of that value. */
  predicate IsUpperHex(c: char, d: int) {
    if d < 10 then '0' <= c <= '9' && c as int - '0' as int == d
    else 'A' <= c <= 'F' && c as int - 'A' as int == d - 10
  }

  /** Two upper case digits for every byte, and a colon between any two of them. */
  lemma {:induction false} PrintedAs(bytes: seq<Byte>, i: nat)
    requires i < |bytes|
    ensures var s := PrintBytes(bytes);
            && |s| == 3 * |bytes| - 1
            && IsUpperHex(s[3 * i], bytes[i] / 16) && IsUpperHex(s[3 * i + 1], bytes[i] % 16)
            && (i + 1 < |bytes| ==> s[3 * i + 2] == ':')
  {
    if |bytes| > 1 {
      PrintedAs(bytes[1..], if i == 0 then 0 else i - 1);
      var s, rest := PrintBytes(bytes), PrintBytes(bytes[1..]);
      assert s == HexByte(bytes[0]) + ":" + rest;
      if i > 0 {
        assert s[3 * i] == rest[3 * (i - 1)] && s[3 * i + 1] == rest[3 * (i - 1) + 1];
        assert i + 1 < |bytes| ==> s[3 * i + 2] == rest[3 * (i - 1) + 2];
      }
    }
  }

  // ---- One byte ----

  predicate AllHex(s: string) {
    forall i :: 0 <= i < |s| ==> HexValue(s[i]).Some?
  }

  /** The number that hex digits stand for. */
  function Number(s: string): nat
    requires AllHex(s)
  {
    if s == "" then 0 else Number(s[..|s| - 1]) * 16 + HexValue(s[|s| - 1]).value
  }

  lemma {:induction false} DigitsSnoc(s: string, c: char, acc: Byte)
    ensures HexDigits(s + [c], acc) ==
              var v, d := HexDigits(s, acc), HexValue(c);
              if v.None? || d.None? || v.value * 16 + d.value > 255 then None else Some(v.value * 16 + d.value)
  {
    var t := s + [c];
    if s == "" {
      assert t == [c] && t[1..] == "";
    } else {
      assert t[0] == s[0] && t[1..] == s[1..] + [c];
      var d := HexValue(s[0]);
      if d.Some? && acc * 16 + d.value <= 255 {
        DigitsSnoc(s[1..], c, acc * 16 + d.value);
      }
    }
  }

  lemma {:induction false} DigitsAre(s: string)
    ensures HexDigits(s, 0).Some? <==> AllHex(s) && Number(s) <= 255
    ensures HexDigits(s, 0).Some? ==> HexDigits(s, 0).value == Number(s)
  {
    if s != "" {
      var n := |s| - 1;
      DigitsAre(s[..n]);
      DigitsSnoc(s[..n], s[n], 0);
      assert s == s[..n] + [s[n]];
      assert AllHex(s) <==> AllHex(s[..n]) && HexValue(s[n]).Some?;
    }
  }

  /** A piece stands for a byte: hex digits of either case, at least one, with a plus sign in front or without. */
  ghost predicate Denotes(piece: string, b: Byte) {
    exists digits: string :: (piece == digits || piece == "+" + digits) && digits != ""
      && AllHex(digits) && Number(digits) == b
  }

  lemma PlusIsNoDigit(digits: string)
    requires AllHex(digits) && digits != ""
    ensures digits[0] != '+'
  {
    assert HexValue(digits[0]).Some?;
  }

  lemma {:induction false} PieceIff(piece: string, b: Byte)
    ensures ParseHex(piece) == Some(b) <==> Denotes(piece, b)
  {
    if ParseHex(piece) == Some(b) {
      var digits := if piece[0] == '+' then piece[1..] else piece;
      DigitsAre(digits);
      assert piece == digits || piece == "+" + digits;
      assert Denotes(piece, b);
    }
    if Denotes(piece, b) {
      var digits: string :| (piece == digits || piece == "+" + digits) && digits != ""
        && AllHex(digits) && Number(digits) == b;
      DigitsAre(digits);
      PlusIsNoDigit(digits);
      if piece == "+" + digits {
        assert piece[1..] == digits;
      }
    }
  }

  // ---- The pieces ----

  function Joined(parts: seq<string>): string
    requires parts != []
  {
    if |parts| == 1 then parts[0] else parts[0] + ":" + Joined(parts[1..])
  }

  ghost predicate NoColons(parts: seq<string>) {
    forall i :: 0 <= i < |parts| ==> ':' !in parts[i]
  }

  lemma JoinCons(head: string, parts: seq<string>)
    requires parts != []
    ensures Joined([head] + parts) == head + ":" + Joined(parts)
  {
    assert ([head] + parts)[1..] == parts;
  }

  lemma {:induction false} SplitJoins(s: string)
    ensures Joined(Split(s)) == s && NoColons(Split(s))
    decreases |s|
  {
    var k := IndexOf(s, ':');
    if k < |s| {
      var head, rest := s[..k], s[k + 1..];
      SplitJoins(rest);
      JoinCons(head, Split(rest));
      assert s == head + ":" + rest;
    }
  }

  // A separator is found behind a head that does not hold it.
  lemma {:induction false} HeadIsFound(head: string, c: char, rest: string)
    requires c !in head
    ensures var s := head + [c] + rest;
            IndexOf(s, c) == |head| && s[..|head|] == head && s[|head| + 1..] == rest
  {
    var s, k := head + [c] + rest, |head|;
    forall i | 0 <= i < k ensures s[i] != c {
      assert s[i] == head[i];
    }
    IndexOfFirst(s, c, k);
  }

  lemma {:induction false} SplitHead(head: string, rest: string)
    requires ':' !in head
    ensures Split(head + [':'] + rest) == [head] + Split(rest) && Split(head) == [head]
  {
    HeadIsFound(head, ':', rest);
    IndexOfFirst(head, ':', |head|);
  }

  lemma {:induction false} JoinSplits(parts: seq<string>, s: string)
    requires parts != [] && NoColons(parts) && s == Joined(parts)
    ensures Split(s) == parts
  {
    var head := parts[0];
    if |parts| == 1 {
      SplitHead(head, "");
      assert parts == [head];
    } else {
      var rest := Joined(parts[1..]);
      JoinSplits(parts[1..], rest);
      SplitHead(head, rest);
      assert s == head + [':'] + rest;
      assert parts == [head] + parts[1..];
    }
  }

  lemma {:induction false} BytesAre(parts: seq<string>, bytes: seq<Byte>)
    requires |parts| == |bytes|
    ensures ParseBytes(parts) == Some(bytes) <==> forall i :: 0 <= i < |parts| ==> Denotes(parts[i], bytes[i])
  {
    if parts != [] {
      BytesAre(parts[1..], bytes[1..]);
      PieceIff(parts[0], bytes[0]);
      assert bytes == [bytes[0]] + bytes[1..];
      assert (forall i :: 0 <= i < |parts| ==> Denotes(parts[i], bytes[i])) <==>
             Denotes(parts[0], bytes[0]) && forall i :: 0 <= i < |parts[1..]| ==> Denotes(parts[1..][i], bytes[1..][i])
      by {
        assert forall i :: 0 < i < |parts| ==> parts[i] == parts[1..][i - 1] && bytes[i] == bytes[1..][i - 1];
        assert forall i :: 0 <= i < |parts[1..]| ==> parts[1..][i] == parts[i + 1] && bytes[1..][i] == bytes[i + 1];
      }
    }
  }

  // ---- The whole string ----

  /** A name without space, a space, and pieces for the bytes with colons between. */
  ghost predicate StandsFor(s: string, f: Fingerprint, parts: seq<string>) {
    && parts != [] && NoColons(parts) && ' ' !in f.hashFunc
    && s == f.hashFunc + " " + Joined(parts)
    && |parts| == |f.bytes| && forall i :: 0 <= i < |parts| ==> Denotes(parts[i], f.bytes[i])
  }

  lemma {:induction false} ParsedStands(s: string, f: Fingerprint)
    requires Parse(s) == Some(f)
    ensures exists parts :: StandsFor(s, f, parts)
  {
    FoundIsHead(s, ' ');
    var rest := s[IndexOf(s, ' ') + 1..];
    SplitJoins(rest);
    PiecesStand(s, f, rest);
  }

  lemma FoundIsHead(s: string, c: char)
    requires IndexOf(s, c) < |s|
    ensures var k := IndexOf(s, c); s == s[..k] + [c] + s[k + 1..] && c !in s[..k]
  {
  }

  lemma {:induction false} PiecesStand(s: string, f: Fingerprint, rest: string)
    requires s == f.hashFunc + [' '] + rest && ' ' !in f.hashFunc
    requires Joined(Split(rest)) == rest && NoColons(Split(rest)) && ParseBytes(Split(rest)) == Some(f.bytes)
    ensures exists parts :: StandsFor(s, f, parts)
  {
    var parts := Split(rest);
    BytesAre(parts, f.bytes);
    assert StandsFor(s, f, parts);
  }

  lemma {:induction false} StandingParses(s: string, f: Fingerprint, parts: seq<string>)
    requires StandsFor(s, f, parts)
    ensures Parse(s) == Some(f)
  {
    HeadIsFound(f.hashFunc, ' ', Joined(parts));
    JoinSplits(parts, Joined(parts));
    BytesAre(parts, f.bytes);
    assert s == f.hashFunc + [' '] + Joined(parts);
  }

  /** A string parses to a fingerprint exactly if it stands for it. */
  lemma {:induction false} ParseIff(s: string, f: Fingerprint)
    ensures Parse(s) == Some(f) <==> exists parts :: StandsFor(s, f, parts)
  {
    if Parse(s) == Some(f) {
      ParsedStands(s, f);
    }
    if parts :| StandsFor(s, f, parts) {
      StandingParses(s, f, parts);
    }
  }
}
