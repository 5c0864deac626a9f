/**
 * The Python string operations the parsers rely on, written out on
 * `seq<char>`: whitespace as `str.isspace()` sees it, `strip()`,
 * `split(sep)`, `split()`, `readlines()`, `replace`, `in`, `startswith`,
 * slicing and the code-point order of `<` on strings.
 */
module Text {
  import opened Sequences

  /** Characters for which Python's `str.isspace()` holds; `strip()` and `split()` use the same set. */
  predicate IsSpace(c: char) {
    || ('\t' <= c <= '\r')
    || ('\U{1C}' <= c <= '\U{1F}')
    || c == ' '
    || c == '\U{85}' || c == '\U{A0}' || c == '\U{1680}'
    || ('\U{2000}' <= c <= '\U{200A}')
    || c == '\U{2028}' || c == '\U{2029}' || c == '\U{202F}' || c == '\U{205F}' || c == '\U{3000}'
  }

  /** `s.isspace()`: non-empty and made of whitespace only. */
  predicate IsBlank(s: string) {
    |s| > 0 && forall i :: 0 <= i < |s| ==> IsSpace(s[i])
  }

  predicate StartsWith(s: string, p: string) {
    |p| <= |s| && s[..|p|] == p
  }

  predicate EndsWith(s: string, p: string) {
    |p| <= |s| && s[|s| - |p|..] == p
  }

  /** `p in s` on strings. */
  predicate Contains(s: string, p: string)
    decreases |s|
  {
    StartsWith(s, p) || (s != [] && Contains(s[1..], p))
  }

  /** `p` occurs in `s` starting at index `i`. */
  predicate OccursAt(s: string, p: string, i: int) {
    0 <= i <= |s| - |p| && s[i..i + |p|] == p
  }

  /** `p in s` holds exactly when `p` occurs at some position of `s`. */
  lemma {:induction false} ContainsIff(s: string, p: string)
    ensures Contains(s, p) <==> exists i :: OccursAt(s, p, i)
    decreases |s|
  {
    if StartsWith(s, p) {
      assert OccursAt(s, p, 0);
    }
    if s == [] {
      if exists i :: OccursAt(s, p, i) {
        var i :| OccursAt(s, p, i);
        assert s[..|p|] == p;
      }
    } else {
      ContainsIff(s[1..], p);
      if exists i :: OccursAt(s, p, i) {
        var i :| OccursAt(s, p, i);
        if i > 0 {
          assert OccursAt(s[1..], p, i - 1) by {
            assert s[1..][i - 1..i - 1 + |p|] == s[i..i + |p|];
          }
        }
      }
      if Contains(s[1..], p) {
        var i :| OccursAt(s[1..], p, i);
        assert OccursAt(s, p, i + 1) by {
          assert s[1..][i..i + |p|] == s[i + 1..i + 1 + |p|];
        }
      }
    }
  }

  /** A pattern whose first character does not occur in `s` is not contained in `s`. */
  lemma {:induction false} NotContainsFirst(s: string, p: string)
    requires p != [] && p[0] !in s
    ensures !Contains(s, p)
    decreases |s|
  {
    if s != [] {
      assert s[0] != p[0];
      NotContainsFirst(s[1..], p);
    }
  }

  function TrimLeft(s: string): (r: string)
    ensures |r| <= |s| && r == s[|s| - |r|..]
    ensures r == [] || !IsSpace(r[0])
    ensures forall i :: 0 <= i < |s| - |r| ==> IsSpace(s[i])
  {
    if s != [] && IsSpace(s[0]) then TrimLeft(s[1..]) else s
  }

  function TrimRight(s: string): (r: string)
    ensures |r| <= |s| && r == s[..|r|]
    ensures r == [] || !IsSpace(r[|r| - 1])
    ensures forall i :: |r| <= i < |s| ==> IsSpace(s[i])
  {
    if s != [] && IsSpace(s[|s| - 1]) then TrimRight(s[..|s| - 1]) else s
  }

  /** `s.strip()`: empty exactly when `s` holds only whitespace, and otherwise starts and ends with a non-space. */
  function Strip(s: string): (r: string)
    ensures r == [] <==> forall i :: 0 <= i < |s| ==> IsSpace(s[i])
    ensures r != [] ==> !IsSpace(r[0]) && !IsSpace(r[|r| - 1])
    ensures (forall i :: 0 <= i < |s| ==> !IsSpace(s[i])) ==> r == s
  {
    TrimRight(TrimLeft(s))
  }

  /** `s.split(sep)` with a one-character separator: never empty, pieces may be empty. */
  function Split(s: string, sep: char): (parts: seq<string>)
    ensures |parts| >= 1
    ensures forall i :: 0 <= i < |parts| ==> sep !in parts[i]
    decreases |s|
  {
    if s == [] then [[]]
    else
      var rest := Split(s[1..], sep);
      if s[0] == sep then [[]] + rest
      else [[s[0]] + rest[0]] + rest[1..]
  }

  /** `sep.join(parts)`. */
  function Join(parts: seq<string>, sep: char): string
    requires |parts| >= 1
  {
    if |parts| == 1 then parts[0] else parts[0] + [sep] + Join(parts[1..], sep)
  }

  /** Splitting and joining again gives back the text. */
  lemma {:induction false} JoinSplit(s: string, sep: char)
    ensures Join(Split(s, sep), sep) == s
  {
    if s != [] {
      var rest := Split(s[1..], sep);
      JoinSplit(s[1..], sep);
      if s[0] == sep {
        assert Split(s, sep) == [[]] + rest;
        assert ([[]] + rest)[1..] == rest;
      } else {
        var parts := Split(s, sep);
        assert parts == [[s[0]] + rest[0]] + rest[1..];
        if |rest| == 1 {
          assert Join(parts, sep) == [s[0]] + rest[0];
        } else {
          assert parts[1..] == rest[1..];
          assert Join(rest, sep) == rest[0] + [sep] + Join(rest[1..], sep);
          assert Join(parts, sep) == [s[0]] + rest[0] + [sep] + Join(rest[1..], sep);
        }
      }
    }
  }

  lemma {:induction false} SplitNoSeparator(s: string, sep: char)
    requires sep !in s
    ensures Split(s, sep) == [s]
  {
    if s != [] {
      assert s[0] != sep && sep !in s[1..];
      SplitNoSeparator(s[1..], sep);
      assert s == [s[0]] + s[1..];
    }
  }

  /** A separator in the text splits it into the pieces of the two sides. */
  lemma {:induction false} SplitAppend(a: string, b: string, sep: char)
    ensures Split(a + [sep] + b, sep) == Split(a, sep) + Split(b, sep)
  {
    if a == [] {
      EmptyHeadTail(a, sep, b);
    } else {
      HeadTail3(a, [sep], b);
      SplitAppend(a[1..], b, sep);
      if a[0] == sep {
        Assoc([[]], Split(a[1..], sep), Split(b, sep));
      } else {
        ConsFirst(a[0], Split(a[1..], sep), Split(b, sep));
      }
    }
  }

  /** Joining pieces free of the separator and splitting again gives back the pieces. */
  lemma {:induction false} SplitJoin(parts: seq<string>, sep: char)
    requires |parts| >= 1
    requires forall i :: 0 <= i < |parts| ==> sep !in parts[i]
    ensures Split(Join(parts, sep), sep) == parts
  {
    SplitNoSeparator(parts[0], sep);
    if |parts| > 1 {
      SplitJoin(parts[1..], sep);
      SplitAppend(parts[0], Join(parts[1..], sep), sep);
    }
  }

  /** `s.split()` with no argument: the maximal runs of non-whitespace, in order. */
  function Words(s: string): (ws: seq<string>)
    ensures forall i :: 0 <= i < |ws| ==> ws[i] != []
    ensures forall i, j :: 0 <= i < |ws| && 0 <= j < |ws[i]| ==> !IsSpace(ws[i][j])
    ensures ws == [] <==> forall i :: 0 <= i < |s| ==> IsSpace(s[i])
    ensures s != [] && !IsSpace(s[0]) ==> ws != [] && ws[0][0] == s[0]
    decreases |s|
  {
    if s == [] then []
    else
      var rest := Words(s[1..]);
      if IsSpace(s[0]) then
        assert forall i :: 0 < i < |s| ==> s[i] == s[1..][i - 1];
        rest
      else if |s| > 1 && !IsSpace(s[1]) then [[s[0]] + rest[0]] + rest[1..]
      else [[s[0]]] + rest
  }

  /** Every whitespace character of `s` replaced by a space. */
  function Blanked(s: string): string {
    seq(|s|, i requires 0 <= i < |s| => if IsSpace(s[i]) then ' ' else s[i])
  }

  /** The pieces that are not empty, in order. */
  function NonEmpty(parts: seq<string>): seq<string> {
    if parts == [] then [] else (if parts[0] == [] then [] else [parts[0]]) + NonEmpty(parts[1..])
  }

  /**
   * `split()` as Python documents it: runs of whitespace act as a single
   * separator and no empty string is returned, that is, the text split at
   * every whitespace character with the empty pieces dropped.
   */
  lemma {:induction false} WordsSplit(s: string)
    ensures Words(s) == NonEmpty(Split(Blanked(s), ' '))
    decreases |s|
  {
    if s != [] {
      var b := Blanked(s);
      assert b[1..] == Blanked(s[1..]);
      WordsSplit(s[1..]);
      var parts := Split(b[1..], ' ');
      SplitUnfold(b, ' ');
      if IsSpace(s[0]) {
        NonEmptyCons([], parts);
      } else {
        assert b[0] == s[0] != ' ';
        NonEmptyCons([s[0]] + parts[0], parts[1..]);
        NonEmptyCons(parts[0], parts[1..]);
        assert parts == [parts[0]] + parts[1..];
        SplitFirst(b[1..], ' ');
        if |s| == 1 || IsSpace(s[1]) {
          assert [s[0]] + parts[0] == [s[0]];
        }
      }
    }
  }

  lemma NonEmptyCons(x: string, parts: seq<string>)
    ensures NonEmpty([x] + parts) == (if x == [] then [] else [x]) + NonEmpty(parts)
  {
    assert ([x] + parts)[1..] == parts;
  }

  lemma SplitUnfold(s: string, sep: char)
    requires s != []
    ensures Split(s, sep) == if s[0] == sep then [[]] + Split(s[1..], sep)
      else [[s[0]] + Split(s[1..], sep)[0]] + Split(s[1..], sep)[1..]
  {
  }

  /** The first piece of a split is empty exactly when the text is empty or starts with the separator. */
  lemma SplitFirst(s: string, sep: char)
    ensures Split(s, sep)[0] == [] <==> s == [] || s[0] == sep
    ensures s != [] && s[0] != sep ==> Split(s, sep)[0][0] == s[0]
  {
  }

  /** Flattening a sequence of strings. */
  function Concat(parts: seq<string>): string {
    if parts == [] then [] else parts[0] + Concat(parts[1..])
  }

  /** `readlines()` on text already read with universal newlines: every line keeps its `'\n'`. */
  function ReadLines(s: string): (lines: seq<string>)
    ensures forall i :: 0 <= i < |lines| ==> lines[i] != []
    ensures forall i :: 0 <= i < |lines| - 1 ==> lines[i][|lines[i]| - 1] == '\n'
    ensures forall i, j :: 0 <= i < |lines| && 0 <= j < |lines[i]| - 1 ==> lines[i][j] != '\n'
    ensures s != [] ==> lines != [] && lines[0][0] == s[0]
    ensures s == [] <==> lines == []
    decreases |s|
  {
    if s == [] then []
    else
      var rest := ReadLines(s[1..]);
      if s[0] == '\n' then [['\n']] + rest
      else if rest == [] then [[s[0]]]
      else [[s[0]] + rest[0]] + rest[1..]
  }

  /** The lines `readlines()` returns are exactly the text, cut after each newline. */
  lemma {:induction false} ConcatReadLines(s: string)
    ensures Concat(ReadLines(s)) == s
  {
    if s != [] {
      var rest := ReadLines(s[1..]);
      ConcatReadLines(s[1..]);
      if s[0] == '\n' {
        assert ([['\n']] + rest)[1..] == rest;
      } else if rest == [] {
        assert Concat([[s[0]]]) == [s[0]] + Concat([]);
      } else {
        var lines := [[s[0]] + rest[0]] + rest[1..];
        assert lines[1..] == rest[1..];
        assert Concat(rest) == rest[0] + Concat(rest[1..]);
      }
    }
  }

  /** `s.replace(p, "")` for a non-empty `p`: occurrences are removed left to right, without overlap. */
  function RemoveAll(s: string, p: string): (r: string)
    requires p != []
    ensures |r| <= |s|
    ensures !Contains(s, p) ==> r == s
    decreases |s|
  {
    if s == [] then []
    else if StartsWith(s, p) then RemoveAll(s[|p|..], p)
    else [s[0]] + RemoveAll(s[1..], p)
  }

  /** No proper suffix of `p` is also a prefix of it, so two occurrences of `p` never overlap. */
  predicate Unbordered(p: string) {
    forall j :: 0 < j < |p| ==> p[j..] != p[..|p| - j]
  }

  /** Text that starts with a non-empty `a`, itself not starting with an unbordered `p`, then `p`, does not start with `p`. */
  lemma NoMatchBefore(a: string, p: string, b: string)
    requires a != [] && Unbordered(p) && !StartsWith(a, p)
    ensures !StartsWith(a + p + b, p)
  {
    var s := a + p + b;
    if |a| >= |p| {
      assert s[..|p|] == a[..|p|];
    } else {
      var j := |a|;
      assert s[j..|p|] == p[..|p| - j];
      assert p[j..] != p[..|p| - j];
    }
  }

  /** One step of the removal scan over text that does not start with `p`. */
  lemma RemoveAllStep(s: string, p: string)
    requires p != [] && s != [] && !StartsWith(s, p)
    ensures RemoveAll(s, p) == [s[0]] + RemoveAll(s[1..], p)
  {
  }

  /** One step of the removal scan over text that starts with `p`. */
  lemma RemoveAllMatch(s: string, p: string)
    requires p != [] && StartsWith(s, p)
    ensures RemoveAll(s, p) == RemoveAll(s[|p|..], p)
  {
  }

  /** A scan step that keeps the first character of `a + p + b`, which does not start with `p`. */
  lemma RemoveAllKeepsHead(a: string, p: string, b: string, r: string)
    requires p != [] && a != [] && !StartsWith(a, p) && !StartsWith(a + p + b, p)
    requires RemoveAll(a[1..] + p + b, p) == RemoveAll(a[1..], p) + r
    ensures RemoveAll(a + p + b, p) == RemoveAll(a, p) + r
  {
    HeadTail3(a, p, b);
    RemoveAllStep(a + p + b, p);
    RemoveAllStep(a, p);
    Assoc([a[0]], RemoveAll(a[1..], p), r);
  }

  /** A scan step that removes the `p` that `a` starts with. */
  lemma RemoveAllSkipsMatch(a: string, p: string, b: string, r: string)
    requires p != [] && StartsWith(a, p)
    requires RemoveAll(a[|p|..] + p + b, p) == RemoveAll(a[|p|..], p) + r
    ensures RemoveAll(a + p + b, p) == RemoveAll(a, p) + r
  {
    Drop3(a, p, b, |p|);
    RemoveAllMatch(a + p + b, p);
    RemoveAllMatch(a, p);
  }

  /**
   * Removing an unbordered `p` from `a + p + b`: no occurrence straddles the
   * `p` in the middle, so the result is the removal from `a`, then the
   * removal from `b`, with the middle `p` gone.
   */
  lemma {:induction false} RemoveAllAround(a: string, p: string, b: string)
    requires p != [] && Unbordered(p)
    ensures RemoveAll(a + p + b, p) == RemoveAll(a, p) + RemoveAll(b, p)
    decreases |a|
  {
    if a == [] {
      assert a + p + b == p + b && (p + b)[..|p|] == p && (p + b)[|p|..] == b;
    } else if StartsWith(a, p) {
      RemoveAllAround(a[|p|..], p, b);
      RemoveAllSkipsMatch(a, p, b, RemoveAll(b, p));
    } else {
      NoMatchBefore(a, p, b);
      RemoveAllAround(a[1..], p, b);
      RemoveAllKeepsHead(a, p, b, RemoveAll(b, p));
    }
  }

  /** ".exe" cannot overlap itself. */
  lemma ExeUnbordered()
    ensures Unbordered(".exe")
  {
    assert ".exe"[1..] != ".exe"[..3] by { assert ".exe"[1] != ".exe"[0]; }
    assert ".exe"[2..] != ".exe"[..2] by { assert ".exe"[2] != ".exe"[0]; }
    assert ".exe"[3..] != ".exe"[..1] by { assert ".exe"[3] != ".exe"[0]; }
  }

  /** `(n + ".exe").replace(".exe", "")` is `n` when `n` itself holds no ".exe". */
  lemma RemoveExeSuffix(n: string)
    requires !Contains(n, ".exe")
    ensures RemoveAll(n + ".exe", ".exe") == n
  {
    ExeUnbordered();
    RemoveAllAround(n, ".exe", []);
    assert n + ".exe" + [] == n + ".exe";
    assert RemoveAll(n, ".exe") == n;
  }

  /** `s.replace(c, "")` for a single character `c`: every occurrence of `c` dropped. */
  function RemoveChar(s: string, c: char): (r: string)
    ensures c !in r
    ensures |r| <= |s|
  {
    if s == [] then [] else (if s[0] == c then [] else [s[0]]) + RemoveChar(s[1..], c)
  }

  /** Removing a one-character pattern is removing that character. */
  lemma {:induction false} RemoveCharIsRemoveAll(s: string, c: char)
    ensures RemoveAll(s, [c]) == RemoveChar(s, c)
    decreases |s|
  {
    if s != [] {
      RemoveCharIsRemoveAll(s[1..], c);
      assert StartsWith(s, [c]) <==> s[0] == c;
    }
  }

  /** `s.replace(a, b)` for single characters `a` and `b`. */
  function ReplaceChar(s: string, a: char, b: char): (r: string)
    ensures |r| == |s|
    ensures forall i :: 0 <= i < |s| ==> r[i] == (if s[i] == a then b else s[i])
  {
    seq(|s|, i requires 0 <= i < |s| => if s[i] == a then b else s[i])
  }

  /** `s.lower()` on ASCII letters; other characters are kept. */
  function LowerAscii(s: string): (r: string)
    ensures |r| == |s|
  {
    seq(|s|, i requires 0 <= i < |s| => if 'A' <= s[i] <= 'Z' then (s[i] as int + 32) as char else s[i])
  }

  /** `s[:n]`. */
  function Take(s: string, n: nat): (r: string)
    ensures |r| == if |s| < n then |s| else n
    ensures r == s[..|r|]
  {
    if |s| <= n then s else s[..n]
  }

  /** `f"{n:02d}"` for `0 <= n < 100`. */
  function TwoDigits(n: nat): (r: string)
    requires n < 100
    ensures |r| == 2 && '0' <= r[0] <= '9' && '0' <= r[1] <= '9'
    ensures (r[0] as int - '0' as int) * 10 + (r[1] as int - '0' as int) == n
  {
    [('0' as int + n / 10) as char, ('0' as int + n % 10) as char]
  }

  /** `a < b` on `str`: lexicographic by code point, a proper prefix first. */
  predicate StrLess(a: string, b: string)
    decreases |a|
  {
    if a == [] then b != []
    else if b == [] then false
    else if a[0] != b[0] then a[0] < b[0]
    else StrLess(a[1..], b[1..])
  }

  lemma {:induction false} StrLessIrreflexive(a: string)
    ensures !StrLess(a, a)
  {
    if a != [] {
      StrLessIrreflexive(a[1..]);
    }
  }

  lemma {:induction false} StrLessTransitive(a: string, b: string, c: string)
    requires StrLess(a, b) && StrLess(b, c)
    ensures StrLess(a, c)
  {
    if a != [] && b != [] && c != [] && a[0] == b[0] && b[0] == c[0] {
      StrLessTransitive(a[1..], b[1..], c[1..]);
    }
  }

  lemma {:induction false} StrLessTotal(a: string, b: string)
    requires a != b
    ensures StrLess(a, b) || StrLess(b, a)
  {
    if a != [] && b != [] && a[0] == b[0] {
      assert a == [a[0]] + a[1..] && b == [b[0]] + b[1..];
      StrLessTotal(a[1..], b[1..]);
    }
  }
}
