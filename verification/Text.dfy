/** Strings as the streaming code sees them: whitespace, stripping, and text with its whitespace erased. */
module Text {

  /** The characters Python's str.strip removes. */
  predicate IsSpace(c: char) {
    var n := c as int;
    || 0x09 <= n <= 0x0d || 0x1c <= n <= 0x20 || n == 0x85 || n == 0xa0 || n == 0x1680
    || 0x2000 <= n <= 0x200a || n == 0x2028 || n == 0x2029 || n == 0x202f || n == 0x205f || n == 0x3000
  }

  function LStrip(s: string): string {
    if s != "" && IsSpace(s[0]) then LStrip(s[1..]) else s
  }

  function RStrip(s: string): string {
    if s != "" && IsSpace(s[|s| - 1]) then RStrip(s[..|s| - 1]) else s
  }

  function Strip(s: string): string { RStrip(LStrip(s)) }

  predicate Trimmed(s: string) {
    s != "" ==> !IsSpace(s[0]) && !IsSpace(s[|s| - 1])
  }

  /** The text without its whitespace. */
  function Erase(s: string): string {
    if s == "" then "" else (if IsSpace(s[0]) then "" else [s[0]]) + Erase(s[1..])
  }

  function Concat(parts: seq<string>): string {
    if parts == [] then "" else parts[0] + Concat(parts[1..])
  }

  lemma {:induction false} EraseAppend(a: string, b: string)
    ensures Erase(a + b) == Erase(a) + Erase(b)
  {
    if a == "" {
      assert a + b == b;
    } else {
      assert (a + b)[1..] == a[1..] + b;
      EraseAppend(a[1..], b);
    }
  }

  lemma {:induction false} ConcatAppend(a: seq<string>, b: seq<string>)
    ensures Concat(a + b) == Concat(a) + Concat(b)
  {
    if a == [] {
      assert a + b == b;
    } else {
      assert (a + b)[1..] == a[1..] + b;
      ConcatAppend(a[1..], b);
    }
  }

  lemma ConcatSnoc(a: seq<string>, s: string)
    ensures Concat(a + [s]) == Concat(a) + s
  {
    ConcatAppend(a, [s]);
    assert Concat([s]) == s + Concat([]);
  }

  /** Erasing distributes over a cut of a slice. */
  lemma EraseSplit(s: string, i: nat, j: nat, k: nat)
    requires i <= j <= k <= |s|
    ensures Erase(s[i..k]) == Erase(s[i..j]) + Erase(s[j..k])
  {
    assert s[i..k] == s[i..j] + s[j..k];
    EraseAppend(s[i..j], s[j..k]);
  }

  lemma EraseConcatCons(head: string, rest: seq<string>)
    ensures Erase(Concat([head] + rest)) == Erase(head) + Erase(Concat(rest))
  {
    assert ([head] + rest)[1..] == rest;
    EraseAppend(head, Concat(rest));
  }

  lemma {:induction false} EraseConcatAppend(a: seq<string>, b: seq<string>)
    ensures Erase(Concat(a + b)) == Erase(Concat(a)) + Erase(Concat(b))
  {
    ConcatAppend(a, b);
    EraseAppend(Concat(a), Concat(b));
  }

  lemma EraseConcatOne(s: string)
    ensures Erase(Concat([s])) == Erase(s)
  {
    assert Concat([s]) == s + Concat([]) == s;
  }

  lemma Assoc(a: string, b: string, c: string)
    ensures (a + b) + c == a + (b + c)
  {}

  lemma {:induction false} EraseLStrip(s: string)
    ensures Erase(LStrip(s)) == Erase(s)
  {
    if s != "" && IsSpace(s[0]) {
      EraseLStrip(s[1..]);
    }
  }

  predicate Blanks(s: string) { forall c | c in s :: IsSpace(c) }

  lemma {:induction false} LStripCuts(s: string) returns (pre: string)
    ensures s == pre + LStrip(s) && Blanks(pre)
  {
    hide IsSpace;
    if s != "" && IsSpace(s[0]) {
      pre := LStripCuts(s[1..]);
      pre := [s[0]] + pre;
    } else {
      pre := "";
    }
  }

  lemma {:induction false} LStripHead(s: string)
    ensures LStrip(s) != "" ==> !IsSpace(LStrip(s)[0])
  {
    hide IsSpace;
    if s != "" && IsSpace(s[0]) {
      LStripHead(s[1..]);
    }
  }

  /** Stripping on the left leaves a suffix that starts with no whitespace. */
  lemma {:induction false} LStripSuffix(s: string)
    ensures LStrip(s) != "" ==> !IsSpace(LStrip(s)[0])
    ensures |LStrip(s)| <= |s| && s[|s| - |LStrip(s)|..] == LStrip(s)
    ensures s != "" && IsSpace(s[0]) ==> |LStrip(s)| < |s|
  {
    hide IsSpace, LStrip;
    var pre := LStripCuts(s);
    LStripHead(s);
    assert pre == "" ==> s == LStrip(s);
  }

  lemma {:induction false} EraseRStrip(s: string)
    ensures Erase(RStrip(s)) == Erase(s)
    ensures RStrip(s) <= s
    ensures RStrip(s) != "" ==> !IsSpace(RStrip(s)[|RStrip(s)| - 1])
  {
    hide IsSpace;
    if s != "" && IsSpace(s[|s| - 1]) {
      var k := |s| - 1;
      EraseRStrip(s[..k]);
      assert s == s[..k] + [s[k]];
      EraseAppend(s[..k], [s[k]]);
      assert Erase([s[k]]) == Erase([s[k]][1..]) == "";
    }
  }

  /** Stripping trims, and removes nothing but whitespace. */
  lemma StripTrims(s: string)
    ensures Trimmed(Strip(s)) && Erase(Strip(s)) == Erase(s)
  {
    EraseLStrip(s);
    LStripSuffix(s);
    EraseRStrip(LStrip(s));
  }

  lemma {:induction false} RStripCuts(s: string) returns (post: string)
    ensures s == RStrip(s) + post && Blanks(post)
  {
    hide IsSpace;
    if s != "" && IsSpace(s[|s| - 1]) {
      post := RStripCuts(s[..|s| - 1]);
      post := post + [s[|s| - 1]];
    } else {
      post := "";
    }
  }

  /** Stripping cuts whitespace off both ends, and all of it. */
  lemma {:induction false} StripCuts(s: string) returns (pre: string, post: string)
    ensures s == pre + Strip(s) + post && Blanks(pre) && Blanks(post) && Trimmed(Strip(s))
  {
    hide IsSpace;
    pre := LStripCuts(s);
    post := RStripCuts(LStrip(s));
    StripTrims(s);
  }

  /** Stripping trimmed text changes nothing. */
  lemma StripTrimmed(s: string)
    requires Trimmed(s)
    ensures Strip(s) == s
  {}
}
