/** Redis glob patterns, and the escaping that makes one a literal prefix test
    (cache/redis/redis.go). */
module Glob {
  /** What is left after a bracket class, and whether the character is in it. */
  function ClassBody(p: string, c: char, found: bool): (r: (bool, string))
    ensures |r.1| <= |p|
    decreases |p|
  {
    if p == [] then (found, [])
    else if p[0] == '\\' && |p| >= 2 then ClassBody(p[2..], c, found || p[1] == c)
    else if p[0] == ']' then (found, p[1..])
    else if |p| >= 3 && p[1] == '-' then
      ClassBody(p[3..], c, found || p[0] <= c <= p[2] || p[2] <= c <= p[0])
    else ClassBody(p[1..], c, found || p[0] == c)
  }

  function Class(p: string, c: char): (r: (bool, string))
    ensures |r.1| <= |p|
  {
    if p != [] && p[0] == '^' then
      var (found, rest) := ClassBody(p[1..], c, false);
      (!found, rest)
    else ClassBody(p, c, false)
  }

  /** Does the pattern match the whole string? */
  predicate GlobMatch(p: string, s: string)
    decreases |p|, |s|
  {
    if p == [] then s == []
    else if p[0] == '*' then GlobMatch(p[1..], s) || (s != [] && GlobMatch(p, s[1..]))
    else if s == [] then false
    else if p[0] == '?' then GlobMatch(p[1..], s[1..])
    else if p[0] == '[' then
      var (inside, rest) := Class(p[1..], s[0]);
      inside && GlobMatch(rest, s[1..])
    else if p[0] == '\\' && |p| >= 2 then p[1] == s[0] && GlobMatch(p[2..], s[1..])
    else p[0] == s[0] && GlobMatch(p[1..], s[1..])
  }

  const SPECIAL := {'*', '?', '[', ']', '\\'}

  function Escaped(s: string): string
    decreases |s|
  {
    if s == [] then []
    else
      var c := s[|s| - 1];
      Escaped(s[..|s| - 1]) + if c in SPECIAL then ['\\', c] else [c]
  }

  /** globEscape */
  method GlobEscape(s: string) returns (r: string)
    ensures r == Escaped(s)
  {
    r := [];
    for i := 0 to |s|
      invariant r == Escaped(s[..i])
    {
      assert s[..i + 1][..i] == s[..i];
      if s[i] in SPECIAL {
        r := r + ['\\'];
      }
      r := r + [s[i]];
    }
    assert s[..|s|] == s;
  }

  function EscapedChar(c: char): string {
    if c in SPECIAL then ['\\', c] else [c]
  }

  lemma {:induction false} EscapedFront(s: string)
    requires s != []
    ensures Escaped(s) == EscapedChar(s[0]) + Escaped(s[1..])
    decreases |s|
  {
    if |s| == 1 {
      assert s[..0] == [] && s[1..] == [];
    } else {
      EscapedFront(s[..|s| - 1]);
      assert s[..|s| - 1][1..] == s[1..][..|s| - 2];
      assert s[1..][|s| - 2] == s[|s| - 1];
    }
  }

  lemma {:induction false} StarMatchesAll(s: string)
    ensures GlobMatch("*", s)
  {
    if s != [] {
      StarMatchesAll(s[1..]);
    } else {
      assert "*"[1..] == "";
      assert GlobMatch("", s);
    }
  }

  /** The pattern Flush scans with matches a key exactly when the key starts with the
      literal prefix, whatever characters the prefix holds. */
  lemma {:induction false} EscapedPrefixExact(prefix: string, s: string)
    ensures GlobMatch(Escaped(prefix) + "*", s) <==> prefix <= s
    decreases |prefix|
  {
    var p := Escaped(prefix) + "*";
    if prefix == [] {
      assert p == "*";
      StarMatchesAll(s);
    } else {
      EscapedFront(prefix);
      var c, rest := prefix[0], Escaped(prefix[1..]) + "*";
      assert p == EscapedChar(c) + rest;
      if s == [] {
        assert p[0] == c || p[0] == '\\';
        assert c != '*' || p[0] == '\\';
      } else {
        EscapedPrefixExact(prefix[1..], s[1..]);
        assert prefix == [c] + prefix[1..] && s == [s[0]] + s[1..];
        if c in SPECIAL {
          assert p[0] == '\\' && p[1] == c && p[2..] == rest;
        } else {
          assert p[0] == c && p[1..] == rest;
        }
      }
    }
  }

  /** Why it is escaped: unescaped, a prefix holding a wildcard reaches keys outside
      it, and one holding a bracket misses its own. */
  lemma UnescapedIsWrong()
    ensures GlobMatch("a?" + "*", "abc") && !("a?" <= "abc")
    ensures !GlobMatch("[a]" + "*", "[a]k") && "[a]" <= "[a]k"
  {
    StarMatchesAll("c");
    var p := "a?" + "*";
    assert p[1..] == "?*" && "?*"[1..] == "*" && "abc"[1..] == "bc" && "bc"[1..] == "c";
    assert "abc"[1] == 'b' && "a?"[1] == '?';
    var q := "[a]" + "*";
    assert q[1..] == "a]*" && "a]*"[1..] == "]*";
    assert ClassBody("a]*", '[', false) == ClassBody("]*", '[', false);
  }
}
