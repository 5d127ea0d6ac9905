/** `String.prototype.trim` of ECMAScript: strips the WhiteSpace and
    LineTerminator code points (sections 12.2 and 12.3 of ECMA-262) from
    both ends of a string. */
module JsText {

  predicate IsTrimmable(c: char) {
    var n := c as int;
    n == 0x09 || n == 0x0A || n == 0x0B || n == 0x0C || n == 0x0D || n == 0x20
    || n == 0xA0 || n == 0x1680 || (0x2000 <= n <= 0x200A)
    || n == 0x2028 || n == 0x2029 || n == 0x202F || n == 0x205F || n == 0x3000 || n == 0xFEFF
  }

  predicate AllTrimmable(s: string) {
    forall i :: 0 <= i < |s| ==> IsTrimmable(s[i])
  }

  function TrimStart(s: string): (r: string)
    ensures |r| <= |s|
  {
    if s == [] || !IsTrimmable(s[0]) then s else TrimStart(s[1..])
  }

  function TrimEnd(s: string): (r: string)
    ensures |r| <= |s|
  {
    if s == [] || !IsTrimmable(s[|s| - 1]) then s else TrimEnd(s[..|s| - 1])
  }

  /** `s.trim()`. */
  function Trim(s: string): (r: string)
    ensures |r| <= |s|
  {
    TrimEnd(TrimStart(s))
  }

  /** `TrimStart` keeps a suffix and drops only trimmable characters before it. */
  lemma {:induction false} TrimStartDrops(s: string)
    ensures var r := TrimStart(s);
      && r == s[|s| - |r|..] && AllTrimmable(s[..|s| - |r|])
      && (r == [] || !IsTrimmable(r[0]))
    decreases |s|
  {
    if s != [] && IsTrimmable(s[0]) {
      TrimStartDrops(s[1..]);
      var r := TrimStart(s);
      var k := |s| - |r|;
      forall i | 1 <= i < k
        ensures IsTrimmable(s[..k][i])
      {
        assert s[..k][i] == s[1..][..k - 1][i - 1];
      }
    }
  }

  /** `TrimEnd` keeps a prefix and drops only trimmable characters after it. */
  lemma {:induction false} TrimEndDrops(s: string)
    ensures var r := TrimEnd(s);
      && r == s[..|r|] && AllTrimmable(s[|r|..])
      && (r == [] || !IsTrimmable(r[|r| - 1]))
    decreases |s|
  {
    if s != [] && IsTrimmable(s[|s| - 1]) {
      TrimEndDrops(s[..|s| - 1]);
      var r := TrimEnd(s);
      forall i | 0 <= i < |s| - |r| - 1
        ensures IsTrimmable(s[|r|..][i])
      {
        assert s[|r|..][i] == s[..|s| - 1][|r|..][i];
      }
    }
  }

  /** The result of `trim` is empty exactly for all-whitespace text, and
      otherwise starts and ends with a character that is not whitespace. */
  lemma TrimSpec(s: string)
    ensures Trim(s) == [] <==> AllTrimmable(s)
    ensures Trim(s) != [] ==> !IsTrimmable(Trim(s)[0]) && !IsTrimmable(Trim(s)[|Trim(s)| - 1])
  {
    var front := TrimStart(s);
    var r := Trim(s);
    TrimStartDrops(s);
    TrimEndDrops(front);
    if r == [] {
      assert s == s[..|s| - |front|] + front;
      assert front == front[|r|..];
    } else {
      assert r[0] == front[0];
    }
  }

  /** Trimming removes exactly the trimmable run at each end: a string made of
      such runs around a core that starts and ends with something else trims
      to that core. */
  lemma {:induction false} TrimStripsPadding(before: string, core: string, after: string)
    requires AllTrimmable(before) && AllTrimmable(after)
    requires core != [] ==> !IsTrimmable(core[0]) && !IsTrimmable(core[|core| - 1])
    ensures Trim(before + core + after) == core
    decreases |before| + |after|
  {
    var s := before + core + after;
    if before != [] {
      assert s[1..] == before[1..] + core + after;
      assert TrimStart(s) == TrimStart(s[1..]);
      TrimStripsPadding(before[1..], core, after);
    } else if core != [] {
      assert s == core + after;
      assert TrimStart(s) == s;
      TrimEndStrips(core, after);
    } else {
      assert s == after;
      TrimSpec(after);
    }
  }

  lemma {:induction false} TrimEndStrips(core: string, after: string)
    requires core != [] && !IsTrimmable(core[|core| - 1])
    requires AllTrimmable(after)
    ensures TrimEnd(core + after) == core
    decreases |after|
  {
    var s := core + after;
    if after != [] {
      assert s[..|s| - 1] == core + after[..|after| - 1];
      TrimEndStrips(core, after[..|after| - 1]);
    } else {
      assert s == core;
    }
  }

  lemma TrimIdempotent(s: string)
    ensures Trim(Trim(s)) == Trim(s)
  {
    var t := Trim(s);
    TrimSpec(s);
    TrimStripsPadding([], t, []);
    assert [] + t + [] == t;
  }
}
