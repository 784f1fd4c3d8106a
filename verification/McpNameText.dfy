/** Text helpers behind the public names: cleaning, shortening, hexadecimal suffixes. */
module McpNameText {
  import opened Prelude

  const MAX_LENGTH := 64
  const HASH_LENGTH := 8
  const DISAMBIGUATION_HASH_LENGTH := 40
  const SECONDARY_HASH_LENGTH := 12

  predicate WordChar(c: char)
  {
    '0' <= c <= '9' || 'A' <= c <= 'Z' || 'a' <= c <= 'z' || c == '_'
  }

  predicate Word(s: string)
  {
    forall i :: 0 <= i < |s| ==> WordChar(s[i])
  }

  function Cleaned(s: string): (r: string)
    ensures |r| == |s| && Word(r)
  {
    if s == "" then "" else [if WordChar(s[0]) then s[0] else '_'] + Cleaned(s[1..])
  }

  function LStrip(s: string): (r: string)
    ensures Word(s) ==> Word(r)
  {
    if s != "" && s[0] == '_' then LStrip(s[1..]) else s
  }

  /** rstrip("_"): the longest prefix that does not end in an underscore. */
  function RStrip(s: string): (r: string)
    ensures |r| <= |s| && r == s[..|r|]
    ensures r == "" || r[|r| - 1] != '_'
    ensures forall i :: |r| <= i < |s| ==> s[i] == '_'
  {
    if s != "" && s[|s| - 1] == '_' then RStrip(s[..|s| - 1]) else s
  }

  /** _safe_mcp_name_part. */
  function SafePart(value: string): (r: string)
    ensures r != "" && Word(r)
  {
    var stripped := RStrip(LStrip(Cleaned(value)));
    if stripped == "" then "unknown" else stripped
  }

  function BaseName(server: string, tool: string): (r: string)
    ensures Word(r) && "mcp__" <= r
  {
    "mcp__" + SafePart(server) + "__" + SafePart(tool)
  }

  /** The visible part of a name that leaves room for `suffixLength` characters. */
  function Stem(baseName: string, suffixLength: nat): (r: string)
    requires suffixLength < MAX_LENGTH
  {
    var room := MAX_LENGTH - suffixLength;
    var stem := RStrip(if |baseName| <= room then baseName else baseName[..room]);
    if stem == "" then "mcp" else stem
  }

  /** _mcp_tool_name_with_suffix; None is the RuntimeError. */
  function WithSuffix(baseName: string, value: string): (r: Option<string>)
    ensures r.Some? <==> |value| + 1 < MAX_LENGTH
    ensures r.Some? && "mcp__" <= baseName ==> |r.value| <= MAX_LENGTH
    ensures r.Some? && Word(baseName) && Word(value) ==> Word(r.value)
  {
    if |value| + 1 >= MAX_LENGTH then None
    else
      var stem := Stem(baseName, |value| + 1);
      assert "mcp__" <= baseName ==> |stem| <= MAX_LENGTH - (|value| + 1) by {
        if "mcp__" <= baseName {
          StemKeepsPrefix(baseName, |value| + 1);
        }
      }
      Some(stem + "_" + value)
  }

  /** A base name starts with a letter, so its stem is never empty. */
  lemma StemKeepsPrefix(baseName: string, suffixLength: nat)
    requires "mcp__" <= baseName && suffixLength < MAX_LENGTH
    ensures |Stem(baseName, suffixLength)| <= MAX_LENGTH - suffixLength
  {
    var room := MAX_LENGTH - suffixLength;
    var cut := if |baseName| <= room then baseName else baseName[..room];
    assert cut[0] == 'm';
  }

  // ------------------------------------------------------------ hexadecimal

  const HEX := "0123456789abcdef"

  predicate HexChar(c: char)
  {
    '0' <= c <= '9' || 'a' <= c <= 'f'
  }

  predicate AllHex(s: string)
  {
    forall i :: 0 <= i < |s| ==> HexChar(s[i])
  }

  function Hex(n: nat): (r: string)
    ensures r != "" && AllHex(r)
  {
    if n < 16 then [HEX[n]] else Hex(n / 16) + [HEX[n % 16]]
  }

  function Pad(s: string, width: nat): (r: string)
    ensures AllHex(s) ==> AllHex(r)
    ensures |r| == if |s| >= width then |s| else width
    decreases width - |s|
  {
    if |s| >= width then s else Pad("0" + s, width)
  }

  /** f"{n:08x}" */
  function Hex8(n: nat): string
  {
    Pad(Hex(n), 8)
  }

  function DigitValue(c: char): nat
  {
    if '0' <= c <= '9' then c as int - '0' as int
    else if 'a' <= c <= 'f' then c as int - 'a' as int + 10
    else 0
  }

  function Value(s: string): nat
  {
    if s == "" then 0 else 16 * Value(s[..|s| - 1]) + DigitValue(s[|s| - 1])
  }

  lemma {:induction false} ValueOfHex(n: nat)
    ensures Value(Hex(n)) == n
  {
    if n >= 16 {
      ValueOfHex(n / 16);
      assert Hex(n)[..|Hex(n)| - 1] == Hex(n / 16);
    } else {
      assert Hex(n)[..0] == "";
    }
  }

  lemma {:induction false} LeadingZero(s: string)
    ensures Value("0" + s) == Value(s)
  {
    if s == "" {
      assert ("0" + s)[..0] == "";
    } else {
      LeadingZero(s[..|s| - 1]);
      assert ("0" + s)[..|s|] == "0" + s[..|s| - 1];
    }
  }

  lemma {:induction false} ValueOfPad(s: string, width: nat)
    ensures Value(Pad(s, width)) == Value(s)
    decreases width - |s|
  {
    if |s| < width {
      LeadingZero(s);
      ValueOfPad("0" + s, width);
    }
  }

  lemma Hex8Injective(m: nat, n: nat)
    requires Hex8(m) == Hex8(n)
    ensures m == n
  {
    ValueOfPad(Hex(m), 8);
    ValueOfPad(Hex(n), 8);
    ValueOfHex(m);
    ValueOfHex(n);
  }

  function Pow16(e: nat): nat
  {
    if e == 0 then 1 else 16 * Pow16(e - 1)
  }

  /** A number needs more than `e` digits exactly from 16^e on. */
  lemma {:induction false} HexLength(n: nat, e: nat)
    requires e >= 1
    ensures |Hex(n)| <= e <==> n < Pow16(e)
  {
    if e == 1 {
      assert Pow16(1) == 16 * Pow16(0);
      if n >= 16 {
        assert |Hex(n / 16)| >= 1;
      }
    } else if n >= 16 {
      HexLength(n / 16, e - 1);
    } else {
      assert Pow16(e) == 16 * Pow16(e - 1) && Pow16(e - 1) >= 1 by {
        Pow16Positive(e - 1);
      }
    }
  }

  lemma {:induction false} Pow16Positive(e: nat)
    ensures Pow16(e) >= 1
  {
    if e > 0 {
      Pow16Positive(e - 1);
    }
  }

  /** The text after the last underscore is determined. */
  lemma LastPartUnique(x: string, u: string, y: string, v: string)
    requires x + "_" + u == y + "_" + v
    requires AllHex(u) && AllHex(v)
    ensures u == v
  {
    var s := x + "_" + u;
    assert s[|x|] == '_' && s[|y|] == '_';
    assert forall i :: |x| < i < |s| ==> s[i] == u[i - |x| - 1];
    assert forall i :: |y| < i < |s| ==> s[i] == (y + "_" + v)[i] == v[i - |y| - 1];
    assert |x| == |y|;
    assert s[|x| + 1..] == u && s[|y| + 1..] == v;
  }
}
