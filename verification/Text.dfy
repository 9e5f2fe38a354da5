/** Python's string operations and SQLite's LIKE, on ASCII text. */
module Text {
  import opened Common

  function LowerChar(c: char): char {
    if 'A' <= c <= 'Z' then c - 'A' + 'a' else c
  }

  function Lower(s: string): (r: string)
    ensures |r| == |s| && forall i :: 0 <= i < |s| ==> r[i] == LowerChar(s[i])
  {
    seq(|s|, i requires 0 <= i < |s| => LowerChar(s[i]))
  }

  predicate StartsWith(s: string, prefix: string) {
    prefix <= s
  }

  predicate EndsWith(s: string, suffix: string) {
    |suffix| <= |s| && s[|s| - |suffix|..] == suffix
  }

  /** `s.rstrip(c)` */
  function RStrip(s: string, c: char): string {
    if s != "" && s[|s| - 1] == c then RStrip(s[..|s| - 1], c) else s
  }

  /** `part in s` on strings. */
  predicate Contains(s: string, part: string) {
    exists i :: 0 <= i <= |s| && StartsWith(s[i..], part)
  }

  /** Python's order on strings. */
  predicate Le(a: string, b: string) {
    a == "" || (b != "" && (a[0] < b[0] || (a[0] == b[0] && Le(a[1..], b[1..]))))
  }

  lemma {:induction false} LeTotal(a: string, b: string)
    ensures Le(a, b) || Le(b, a)
  {
    if a != "" && b != "" { LeTotal(a[1..], b[1..]); }
  }

  lemma {:induction false} LeAntisymmetric(a: string, b: string)
    requires Le(a, b) && Le(b, a)
    ensures a == b
  {
    if a != "" && b != "" {
      LeAntisymmetric(a[1..], b[1..]);
      assert a == [a[0]] + a[1..] && b == [b[0]] + b[1..];
    }
  }

  lemma {:induction false} LeTransitive(a: string, b: string, c: string)
    requires Le(a, b) && Le(b, c)
    ensures Le(a, c)
  {
    if a != "" && a[0] == b[0] && b[0] == c[0] { LeTransitive(a[1..], b[1..], c[1..]); }
  }

  // ---------- what they mean ----------

  /** Only the capitals A to Z change, each to the letter 32 places on. */
  lemma LowerCharExactly(c: char)
    ensures 'A' <= c <= 'Z' ==> LowerChar(c) as int == c as int + 32
    ensures !('A' <= c <= 'Z') ==> LowerChar(c) == c
  {
  }

  lemma ContainsExactly(s: string, part: string)
    ensures Contains(s, part) <==> exists a, b :: s == a + part + b
  {
    if i :| 0 <= i <= |s| && StartsWith(s[i..], part) {
      assert s == s[..i] + part + s[i + |part|..];
    }
    if a, b :| s == a + part + b {
      assert s[|a|..] == part + b;
      assert StartsWith(s[|a|..], part);
    }
  }

  /** What is stripped are all the c's at the end. */
  lemma {:induction false} RStripExactly(s: string, c: char)
    ensures RStrip(s, c) <= s && forall i :: |RStrip(s, c)| <= i < |s| ==> s[i] == c
    ensures RStrip(s, c) != "" ==> RStrip(s, c)[|RStrip(s, c)| - 1] != c
  {
    if s != "" && s[|s| - 1] == c {
      RStripExactly(s[..|s| - 1], c);
    }
  }

  /** The strings first differ at place k, and there a has the smaller character. */
  ghost predicate SmallerAt(a: string, b: string, k: nat) {
    k < |a| && k < |b| && a[..k] == b[..k] && a[k] < b[k]
  }

  /** A string comes before its extensions and before what has a greater character at the first difference. */
  lemma {:induction false} LeExactly(a: string, b: string)
    ensures Le(a, b) <==> a <= b || exists k: nat :: SmallerAt(a, b, k)
  {
    if a != "" && b != "" {
      LeExactly(a[1..], b[1..]);
      if k: nat :| SmallerAt(a, b, k) && k > 0 {
        assert a[..k][0] == b[..k][0];
        assert a[1..][..k - 1] == a[..k][1..] && b[1..][..k - 1] == b[..k][1..];
        assert SmallerAt(a[1..], b[1..], k - 1);
      }
      if a[0] < b[0] {
        assert SmallerAt(a, b, 0);
      } else if a[0] == b[0] {
        if k: nat :| SmallerAt(a[1..], b[1..], k) {
          assert a[..k + 1] == [a[0]] + a[1..][..k] && b[..k + 1] == [b[0]] + b[1..][..k];
          assert SmallerAt(a, b, k + 1);
        }
        if a[1..] <= b[1..] {
          assert a == [a[0]] + a[1..] && b == [b[0]] + b[1..];
        }
      }
    }
  }

  // ---------- SQL LIKE with ESCAPE '\', as SQLite compares: ASCII case ignored ----------

  predicate SameLetter(a: char, b: char) { LowerChar(a) == LowerChar(b) }

  predicate Like(pattern: string, s: string)
    decreases |pattern|, |s|
  {
    if pattern == "" then s == ""
    else if pattern[0] == '\\' then
      |pattern| >= 2 && s != "" && SameLetter(pattern[1], s[0]) && Like(pattern[2..], s[1..])
    else if pattern[0] == '%' then Like(pattern[1..], s) || (s != "" && Like(pattern, s[1..]))
    else s != "" && (pattern[0] == '_' || SameLetter(pattern[0], s[0])) && Like(pattern[1..], s[1..])
  }

  function Replace(s: string, c: char, sub: string): string {
    if s == "" then "" else (if s[0] == c then sub else [s[0]]) + Replace(s[1..], c, sub)
  }

  /** A pattern for everything under `prefix/`: the wildcards inside the prefix are escaped. */
  function LikePrefix(prefix: string): string {
    Replace(Replace(Replace(prefix, '\\', "\\\\"), '%', "\\%"), '_', "\\_") + "/%"
  }

  /** `s` starts with `prefix/`, up to ASCII case. */
  predicate Under(prefix: string, s: string) {
    |s| > |prefix| && s[|prefix|] == '/' && forall i :: 0 <= i < |prefix| ==> SameLetter(prefix[i], s[i])
  }

  lemma {:induction false} ReplaceParts(a: string, b: string, c: char, sub: string)
    ensures Replace(a + b, c, sub) == Replace(a, c, sub) + Replace(b, c, sub)
  {
    if a == "" {
      assert a + b == b;
    } else {
      ReplaceParts(a[1..], b, c, sub);
      assert a == [a[0]] + a[1..];
      ConsAppend(a[0], a[1..], b);
      Assoc(if a[0] == c then sub else [a[0]], Replace(a[1..], c, sub), Replace(b, c, sub));
    }
  }

  lemma ReplaceOne(c: char, d: char, sub: string)
    ensures Replace([d], c, sub) == if c == d then sub else [d]
  {
    assert [d][1..] == "";
  }

  lemma ReplaceCons(d: char, s: string, c: char, sub: string)
    ensures Replace([d] + s, c, sub) == Replace([d], c, sub) + Replace(s, c, sub)
  {
    ReplaceParts([d], s, c, sub);
  }

  /** How one character is escaped. */
  function Escaped(c: char): string {
    Replace(Replace(Replace([c], '\\', "\\\\"), '%', "\\%"), '_', "\\_")
  }

  lemma EscapedIs(c: char)
    ensures Escaped(c) == if c in "\\%_" then "\\" + [c] else [c]
  {
    ReplaceOne('\\', c, "\\\\");
    ReplaceOne('%', c, "\\%");
    ReplaceOne('_', c, "\\_");
    ReplaceTwo(c, '%', "\\%");
    ReplaceTwo(c, '_', "\\_");
  }

  /** One character of the prefix becomes itself, or itself behind a backslash. */
  lemma LikePrefixStep(prefix: string)
    requires prefix != ""
    ensures LikePrefix(prefix) ==
      (if prefix[0] in "\\%_" then "\\" + [prefix[0]] else [prefix[0]]) + LikePrefix(prefix[1..])
  {
    var c, rest := prefix[0], prefix[1..];
    assert prefix == [c] + rest;
    ReplaceCons(c, rest, '\\', "\\\\");
    var first, rest1 := Replace([c], '\\', "\\\\"), Replace(rest, '\\', "\\\\");
    ReplaceParts(first, rest1, '%', "\\%");
    var second, rest2 := Replace(first, '%', "\\%"), Replace(rest1, '%', "\\%");
    ReplaceParts(second, rest2, '_', "\\_");
    EscapedIs(c);
    Assoc(Escaped(c), Replace(rest2, '_', "\\_"), "/%");
  }

  lemma ReplaceTwo(d: char, c: char, sub: string)
    requires c != '\\'
    ensures Replace("\\\\", c, sub) == "\\\\"
    ensures c == '_' ==> Replace("\\%", c, sub) == "\\%"
  {
    assert "\\\\"[1..] == "\\" && "\\"[1..] == "" && "\\%"[1..] == "%";
    ReplaceOne(c, '\\', sub);
    ReplaceOne(c, '%', sub);
  }

  lemma {:induction false} PercentMatchesAll(s: string)
    ensures Like("%", s)
  {
    assert "%"[1..] == "";
    if s != "" { PercentMatchesAll(s[1..]); }
  }

  /** The escaped pattern matches exactly the paths under the prefix, whatever characters the prefix holds. */
  lemma {:induction false} LikePrefixMatchesUnder(prefix: string, s: string)
    ensures Like(LikePrefix(prefix), s) <==> Under(prefix, s)
  {
    if prefix == "" {
      assert LikePrefix(prefix) == "/%";
      assert "/%"[1..] == "%";
      if s != "" { PercentMatchesAll(s[1..]); }
      assert SameLetter('/', '/');
    } else {
      LikePrefixStep(prefix);
      var tail := LikePrefix(prefix[1..]);
      if s != "" {
        LikePrefixMatchesUnder(prefix[1..], s[1..]);
        assert Under(prefix, s) <==> SameLetter(prefix[0], s[0]) && Under(prefix[1..], s[1..]) by {
          assert forall i :: 0 <= i < |prefix| - 1 ==> prefix[1..][i] == prefix[i + 1];
          if SameLetter(prefix[0], s[0]) && Under(prefix[1..], s[1..]) {
            forall i | 0 <= i < |prefix| ensures SameLetter(prefix[i], s[i]) {
              if i > 0 { assert SameLetter(prefix[1..][i - 1], s[1..][i - 1]); }
            }
          }
          if Under(prefix, s) {
            forall i | 0 <= i < |prefix| - 1 ensures SameLetter(prefix[1..][i], s[1..][i]) {
              assert SameLetter(prefix[i + 1], s[i + 1]);
            }
          }
        }
      }
      if prefix[0] in "\\%_" {
        assert ("\\" + [prefix[0]] + tail)[2..] == tail;
      } else {
        assert ([prefix[0]] + tail)[1..] == tail;
      }
    }
  }

  // ---------- split and join ----------

  /** `s.split(c)` */
  function Split(s: string, c: char): (parts: seq<string>)
    ensures |parts| > 0
  {
    if s == "" then [""]
    else
      var rest := Split(s[1..], c);
      if s[0] == c then [""] + rest else [[s[0]] + rest[0]] + rest[1..]
  }

  /** `c.join(parts)` */
  function Join(parts: seq<string>, c: char): string
    requires |parts| > 0
  {
    if |parts| == 1 then parts[0] else parts[0] + [c] + Join(parts[1..], c)
  }

  /** The parts when x is put before. */
  function Headed(x: char, parts: seq<string>, c: char): seq<string>
    requires |parts| > 0
  {
    if x == c then [""] + parts else [[x] + parts[0]] + parts[1..]
  }

  lemma SplitCons(x: char, s: string, c: char)
    ensures Split([x] + s, c) == Headed(x, Split(s, c), c)
  {
    assert ([x] + s)[1..] == s;
  }

  lemma HeadOfParts(x: char, a: seq<string>, b: seq<string>, c: char)
    requires |a| > 0
    ensures Headed(x, a + b, c) == Headed(x, a, c) + b
  {
    assert (a + b)[1..] == a[1..] + b;
  }

  lemma {:induction false} SplitAround(a: string, b: string, c: char)
    ensures Split(a + [c] + b, c) == Split(a, c) + Split(b, c)
  {
    if a == "" {
      assert "" + [c] + b == [c] + b;
      SplitCons(c, b, c);
    } else {
      var rest := a[1..] + [c] + b;
      SplitAround(a[1..], b, c);
      assert a == [a[0]] + a[1..];
      assert a + [c] + b == [a[0]] + rest;
      SplitCons(a[0], rest, c);
      SplitCons(a[0], a[1..], c);
      HeadOfParts(a[0], Split(a[1..], c), Split(b, c), c);
    }
  }

  lemma {:induction false} SplitWhole(a: string, c: char)
    requires c !in a
    ensures Split(a, c) == [a]
  {
    if a != "" {
      assert a[0] in a && a == [a[0]] + a[1..];
      SplitWhole(a[1..], c);
    }
  }

  lemma {:induction false} SplitParts(s: string, c: char)
    ensures |Split(s, c)| > 1 <==> c in s
    ensures forall i :: 0 <= i < |Split(s, c)| ==> c !in Split(s, c)[i]
  {
    if s != "" {
      SplitParts(s[1..], c);
      assert s == [s[0]] + s[1..];
    }
  }

  lemma JoinFirst(x: char, p: string, rest: seq<string>, c: char)
    ensures Join([[x] + p] + rest, c) == [x] + Join([p] + rest, c)
  {
    assert ([[x] + p] + rest)[1..] == rest && ([p] + rest)[1..] == rest;
    if rest != [] {
      assert [x] + p + [c] + Join(rest, c) == [x] + (p + [c] + Join(rest, c));
    }
  }

  lemma {:induction false} JoinSplit(s: string, c: char)
    ensures Join(Split(s, c), c) == s
  {
    if s != "" {
      JoinSplit(s[1..], c);
      var rest := Split(s[1..], c);
      if s[0] == c {
        assert ([""] + rest)[1..] == rest;
        assert "" + [c] + s[1..] == s;
      } else {
        JoinFirst(s[0], rest[0], rest[1..], c);
        assert [rest[0]] + rest[1..] == rest;
      }
    }
  }

  lemma {:induction false} SplitJoin(parts: seq<string>, c: char)
    requires |parts| > 0 && forall i :: 0 <= i < |parts| ==> c !in parts[i]
    ensures Split(Join(parts, c), c) == parts
  {
    if |parts| == 1 {
      SplitWhole(parts[0], c);
    } else {
      SplitJoin(parts[1..], c);
      SplitAround(parts[0], Join(parts[1..], c), c);
      SplitWhole(parts[0], c);
    }
  }

  lemma {:induction false} JoinAround(a: seq<string>, b: seq<string>, c: char)
    requires |a| > 0 && |b| > 0
    ensures Join(a + b, c) == Join(a, c) + [c] + Join(b, c)
  {
    if |a| == 1 {
      assert (a + b)[1..] == b;
    } else {
      JoinAround(a[1..], b, c);
      assert (a + b)[1..] == a[1..] + b;
    }
  }

  /** `s.rsplit(c, 1)[0]`: all before the last c, or all of it. */
  function BeforeLast(s: string, c: char): string {
    if c !in s then s
    else if s[|s| - 1] == c then s[..|s| - 1]
    else BeforeLast(s[..|s| - 1], c)
  }

  /** `s.rsplit(c, 1)[-1]`: all after the last c, or all of it. */
  function AfterLast(s: string, c: char): string {
    if s == "" || s[|s| - 1] == c then "" else AfterLast(s[..|s| - 1], c) + [s[|s| - 1]]
  }

  lemma {:induction false} AroundLast(s: string, c: char)
    requires c in s
    ensures s == BeforeLast(s, c) + [c] + AfterLast(s, c)
  {
    if s[|s| - 1] != c {
      assert s == s[..|s| - 1] + [s[|s| - 1]];
      AroundLast(s[..|s| - 1], c);
    }
  }
}
