/** Python string behaviour that the sentence splitter and the agent loop share. */
module Text {

  /** The characters that Python's `str.isspace`, `str.strip` and `\s` treat as white space. */
  predicate IsSpace(c: char) {
    var n := c as int;
    || 9 <= n <= 13
    || 28 <= n <= 32
    || n == 0x85 || n == 0xA0 || n == 0x1680 || n == 0x2028 || n == 0x2029 || n == 0x202F || n == 0x205F || n == 0x3000
    || 0x2000 <= n <= 0x200A
  }

  predicate Blank(s: string) {
    forall i :: 0 <= i < |s| ==> IsSpace(s[i])
  }

  predicate Trimmed(s: string) {
    s == "" || (!IsSpace(s[0]) && !IsSpace(s[|s| - 1]))
  }

  function TrimLeft(s: string): string {
    if s != "" && IsSpace(s[0]) then TrimLeft(s[1..]) else s
  }

  function TrimRight(s: string): string {
    if s != "" && IsSpace(s[|s| - 1]) then TrimRight(s[..|s| - 1]) else s
  }

  function Strip(s: string): string {
    TrimRight(TrimLeft(s))
  }

  function Join(separator: string, parts: seq<string>): string {
    if parts == [] then ""
    else if |parts| == 1 then parts[0]
    else parts[0] + separator + Join(separator, parts[1..])
  }

  lemma JoinFirst(first: string, rest: seq<string>)
    ensures Join("", [first] + rest) == first + Join("", rest)
  {
    assert ([first] + rest)[1..] == rest;
  }

  function Concat(parts: seq<string>): string {
    if parts == [] then "" else Concat(parts[..|parts| - 1]) + parts[|parts| - 1]
  }

  lemma {:induction false} TrimLeftCuts(s: string) returns (left: string)
    ensures Blank(left) && s == left + TrimLeft(s)
    ensures TrimLeft(s) != "" ==> !IsSpace(TrimLeft(s)[0])
  {
    left := "";
    if s != "" && IsSpace(s[0]) {
      var rest := TrimLeftCuts(s[1..]);
      left := [s[0]] + rest;
      assert s == [s[0]] + s[1..];
    }
  }

  lemma BlankMore(s: string, front: string, blank: string)
    requires s != "" && IsSpace(s[|s| - 1]) && Blank(blank) && s[..|s| - 1] == front + blank
    ensures Blank(blank + [s[|s| - 1]]) && s == front + (blank + [s[|s| - 1]])
  {
    assert s == s[..|s| - 1] + [s[|s| - 1]];
  }

  lemma {:induction false} TrimRightCuts(s: string) returns (right: string)
    ensures Blank(right) && s == TrimRight(s) + right
    ensures TrimRight(s) != "" ==> !IsSpace(TrimRight(s)[|TrimRight(s)| - 1])
  {
    if s == "" || !IsSpace(s[|s| - 1]) {
      right := "";
      assert s + "" == s;
    } else {
      var rest := TrimRightCuts(s[..|s| - 1]);
      BlankMore(s, TrimRight(s[..|s| - 1]), rest);
      right := rest + [s[|s| - 1]];
    }
  }

  /** `strip` removes exactly a blank border: what is left is trimmed. */
  lemma StripCuts(s: string) returns (left: string, right: string)
    ensures Blank(left) && Blank(right) && Trimmed(Strip(s))
    ensures s == left + Strip(s) + right
  {
    left := TrimLeftCuts(s);
    right := TrimRightCuts(TrimLeft(s));
    var middle := Strip(s);
    assert left + (middle + right) == left + middle + right;
    assert middle != "" ==> (middle + right)[0] == middle[0];
  }

  lemma {:induction false} TrimLeftBlank(blank: string, rest: string)
    requires Blank(blank)
    ensures TrimLeft(blank + rest) == TrimLeft(rest)
    decreases |blank|
  {
    if blank == "" {
      assert blank + rest == rest;
    } else {
      assert (blank + rest)[1..] == blank[1..] + rest;
      TrimLeftBlank(blank[1..], rest);
    }
  }

  /** ... and that decomposition is the only one. */
  lemma StripUnique(left: string, middle: string, right: string)
    requires Blank(left) && Blank(right) && Trimmed(middle)
    ensures Strip(left + middle + right) == middle
  {
    assert left + middle + right == left + (middle + right);
    TrimLeftBlank(left, middle + right);
    if middle == "" {
      assert middle + right == right + "";
      TrimLeftBlank(right, "");
    } else {
      assert (middle + right)[0] == middle[0];
      assert TrimLeft(middle + right) == middle + right;
      TrimRightUnique(middle, right);
    }
  }

  lemma {:induction false} TrimRightUnique(middle: string, right: string)
    requires Blank(right) && (middle == "" || !IsSpace(middle[|middle| - 1]))
    ensures TrimRight(middle + right) == middle
    decreases |right|
  {
    var s := middle + right;
    if right == "" {
      assert s == middle;
    } else {
      assert s[|s| - 1] == right[|right| - 1];
      assert s[..|s| - 1] == middle + right[..|right| - 1];
      TrimRightUnique(middle, right[..|right| - 1]);
    }
  }

  /** A blank prefix does not change what `strip` returns. */
  lemma StripBlankPrefix(blank: string, s: string)
    requires Blank(blank)
    ensures Strip(blank + s) == Strip(s)
  {
    var left, right := StripCuts(s);
    assert blank + s == (blank + left) + Strip(s) + right;
    StripUnique(blank + left, Strip(s), right);
  }

  lemma StripIdempotent(s: string)
    ensures Strip(Strip(s)) == Strip(s)
  {
    var _, _ := StripCuts(s);
    assert "" + Strip(s) + "" == Strip(s);
    StripUnique("", Strip(s), "");
  }

  lemma StripBlank(s: string)
    ensures Strip(s) == "" <==> Blank(s)
  {
    var left, right := StripCuts(s);
    if Strip(s) == "" {
      assert s == left + right;
    } else {
      assert s[|left|] == Strip(s)[0];
    }
  }
}
