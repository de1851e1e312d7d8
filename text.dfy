/**
 * The JavaScript string operations the extension relies on:
 * `String.prototype.split` with a one-character separator and
 * `String.prototype.trim`; and `Join`, the model's way of stating
 * "words separated by single spaces", the text `runTest` builds with a
 * template literal and `+=`.
 */
module Text {

  /** The parts with one separator between neighbours (the inverse of `Split`). */
  function Join(parts: seq<string>, sep: char): string
  {
    if |parts| == 0 then ""
    else if |parts| == 1 then parts[0]
    else parts[0] + [sep] + Join(parts[1..], sep)
  }

  /** Appending one more part appends the separator and the part. */
  lemma {:induction false} JoinSnoc(parts: seq<string>, x: string, sep: char)
    requires |parts| >= 1
    ensures Join(parts + [x], sep) == Join(parts, sep) + [sep] + x
  {
    if |parts| == 1 {
      assert parts + [x] == [parts[0], x];
      assert [parts[0], x][1..] == [x];
    } else {
      assert (parts + [x])[1..] == parts[1..] + [x];
      JoinSnoc(parts[1..], x, sep);
    }
  }

  /**
   * `s.split(sep)`: the maximal pieces of `s` between separators, so
   * at least one piece (`"".split(sep)` is `[""]`), none holding the
   * separator, and joining them back gives `s`.
   */
  function Split(s: string, sep: char): (parts: seq<string>)
    ensures |parts| >= 1
    ensures forall i :: 0 <= i < |parts| ==> sep !in parts[i]
    ensures forall p :: p in parts ==> sep !in p
    ensures Join(parts, sep) == s
  {
    if |s| == 0 then [""]
    else
      var rest := Split(s[1..], sep);
      if s[0] == sep then
        assert ([""] + rest)[1..] == rest;
        [""] + rest
      else
        var parts := [[s[0]] + rest[0]] + rest[1..];
        assert parts[1..] == rest[1..];
        assert |rest| >= 2 ==> Join(rest, sep) == rest[0] + [sep] + Join(rest[1..], sep);
        assert s == [s[0]] + s[1..];
        parts
  }

  /** A piece without the separator splits to itself. */
  lemma {:induction false} SplitWithoutSep(s: string, sep: char)
    requires sep !in s
    ensures Split(s, sep) == [s]
  {
    if |s| > 0 {
      assert sep !in s[1..];
      SplitWithoutSep(s[1..], sep);
    }
  }

  /** A separator-free head followed by the separator splits off as one piece. */
  lemma {:induction false} SplitHead(a: string, t: string, sep: char)
    requires sep !in a
    ensures Split(a + [sep] + t, sep) == [a] + Split(t, sep)
  {
    if |a| == 0 {
      assert a + [sep] + t == [sep] + t;
      assert ([sep] + t)[1..] == t;
    } else {
      var s := a + [sep] + t;
      assert s[1..] == a[1..] + [sep] + t;
      assert sep !in a[1..];
      SplitHead(a[1..], t, sep);
      assert [a[0]] + a[1..] == a;
    }
  }

  /** Splitting undoes joining pieces that hold no separator. */
  lemma {:induction false} SplitJoin(parts: seq<string>, sep: char)
    requires |parts| >= 1
    requires forall i :: 0 <= i < |parts| ==> sep !in parts[i]
    ensures Split(Join(parts, sep), sep) == parts
  {
    if |parts| == 1 {
      SplitWithoutSep(parts[0], sep);
    } else {
      assert forall i :: 0 <= i < |parts[1..]| ==> sep !in parts[1..][i] by {
        forall i | 0 <= i < |parts[1..]| ensures sep !in parts[1..][i] {
          assert parts[1..][i] == parts[i + 1];
        }
      }
      SplitJoin(parts[1..], sep);
      SplitHead(parts[0], Join(parts[1..], sep), sep);
      assert [parts[0]] + parts[1..] == parts;
    }
  }

  /**
   * Splitting text around one separator splits each side on its own:
   * the pieces of `a`, in order, then the pieces of `b`.
   */
  lemma SplitAppend(a: string, b: string, sep: char)
    ensures Split(a + [sep] + b, sep) == Split(a, sep) + Split(b, sep)
  {
    var left, right := Split(a, sep), Split(b, sep);
    var parts := left + right;
    JoinAppend(left, right, sep);
    assert Join(parts, sep) == a + [sep] + b;
    NoSepInConcat(left, right, sep);
    SplitJoin(parts, sep);
  }

  /** Neither list's parts hold the separator, so neither do those of their concatenation. */
  lemma NoSepInConcat(left: seq<string>, right: seq<string>, sep: char)
    requires forall i :: 0 <= i < |left| ==> sep !in left[i]
    requires forall i :: 0 <= i < |right| ==> sep !in right[i]
    ensures forall i :: 0 <= i < |left + right| ==> sep !in (left + right)[i]
  {
    forall i | 0 <= i < |left + right|
      ensures sep !in (left + right)[i]
    {
      if i < |left| {
        assert (left + right)[i] == left[i];
      } else {
        assert (left + right)[i] == right[i - |left|];
      }
    }
  }

  /**
   * Joining more parts after at least one adds a separator and the
   * further parts joined (nothing when there are none).
   */
  lemma {:induction false} JoinAppend(parts: seq<string>, extra: seq<string>, sep: char)
    requires |parts| >= 1
    ensures Join(parts + extra, sep) == Join(parts, sep) + (if extra == [] then "" else [sep] + Join(extra, sep))
  {
    if extra == [] {
      assert parts + extra == parts;
    } else if |parts| == 1 {
      assert (parts + extra)[0] == parts[0];
      assert (parts + extra)[1..] == extra;
    } else {
      assert (parts + extra)[0] == parts[0];
      assert (parts + extra)[1..] == parts[1..] + extra;
      JoinAppend(parts[1..], extra, sep);
    }
  }

  /** Every character of a joined string is a separator or comes from some part. */
  lemma {:induction false} JoinChars(parts: seq<string>, sep: char, k: nat)
    requires k < |Join(parts, sep)|
    ensures Join(parts, sep)[k] == sep || exists i :: 0 <= i < |parts| && Join(parts, sep)[k] in parts[i]
  {
    if |parts| == 1 {
      assert Join(parts, sep)[k] in parts[0];
    } else if |parts| >= 2 {
      var j := parts[0] + [sep] + Join(parts[1..], sep);
      if k < |parts[0]| {
        assert j[k] in parts[0];
      } else if k > |parts[0]| {
        var k' := k - |parts[0]| - 1;
        assert j[k] == Join(parts[1..], sep)[k'];
        JoinChars(parts[1..], sep, k');
        if Join(parts, sep)[k] != sep {
          var i :| 0 <= i < |parts[1..]| && Join(parts[1..], sep)[k'] in parts[1..][i];
          assert Join(parts, sep)[k] in parts[i + 1];
        }
      }
    }
  }

  /** Every character of every part appears in the joined string. */
  lemma {:induction false} JoinContainsParts(parts: seq<string>, sep: char, i: nat, c: char)
    requires i < |parts| && c in parts[i]
    ensures c in Join(parts, sep)
  {
    if |parts| >= 2 {
      if i == 0 {
        assert c in parts[0] + [sep] + Join(parts[1..], sep);
      } else {
        assert parts[1..][i - 1] == parts[i];
        JoinContainsParts(parts[1..], sep, i - 1, c);
        assert c in parts[0] + [sep] + Join(parts[1..], sep);
      }
    }
  }

  /**
   * The characters `trim` removes: ECMAScript WhiteSpace and
   * LineTerminator code points (all in the Basic Multilingual Plane, so
   * code units and scalar values agree).
   */
  predicate IsWhitespace(c: char)
  {
    c in WhitespaceChars
  }

  /** The code points of `IsWhitespace`, U+2000 to U+200A written out. */
  const WhitespaceChars: set<char> := {
    ' ', '\t', '\n', '\r', '\U{B}', '\U{C}', '\U{A0}', '\U{1680}',
    '\U{2000}', '\U{2001}', '\U{2002}', '\U{2003}', '\U{2004}', '\U{2005}',
    '\U{2006}', '\U{2007}', '\U{2008}', '\U{2009}', '\U{200A}',
    '\U{2028}', '\U{2029}', '\U{202F}', '\U{205F}', '\U{3000}', '\U{FEFF}'
  }

  /** `s` with its leading whitespace removed. */
  function TrimStart(s: string): (r: string)
    ensures |r| <= |s| && r == s[|s| - |r|..]
    ensures forall i :: 0 <= i < |s| - |r| ==> IsWhitespace(s[i])
    ensures r == "" || !IsWhitespace(r[0])
  {
    if |s| > 0 && IsWhitespace(s[0]) then
      var r := TrimStart(s[1..]);
      assert forall i :: 1 <= i < |s| ==> s[i] == s[1..][i - 1];
      r
    else
      s
  }

  /** `s` with its trailing whitespace removed. */
  function TrimEnd(s: string): (r: string)
    ensures |r| <= |s| && r == s[..|r|]
    ensures forall i :: |r| <= i < |s| ==> IsWhitespace(s[i])
    ensures r == "" || !IsWhitespace(r[|r| - 1])
  {
    if |s| > 0 && IsWhitespace(s[|s| - 1]) then TrimEnd(s[..|s| - 1]) else s
  }

  /**
   * `s.trim()`: the slice of `s` left after dropping whitespace at both
   * ends; it neither starts nor ends with whitespace.
   */
  function Trim(s: string): (r: string)
    ensures r == "" || (!IsWhitespace(r[0]) && !IsWhitespace(r[|r| - 1]))
    ensures exists i :: TrimmedAt(s, i, r)
  {
    var t := TrimStart(s);
    var r := TrimEnd(t);
    TrimmedBothEnds(s, t, r);
    r
  }

  /** Trimming the end of a trimmed start leaves a slice with only whitespace around it. */
  lemma TrimmedBothEnds(s: string, t: string, r: string)
    requires |t| <= |s| && t == s[|s| - |t|..]
    requires forall i :: 0 <= i < |s| - |t| ==> IsWhitespace(s[i])
    requires t == "" || !IsWhitespace(t[0])
    requires |r| <= |t| && r == t[..|r|]
    requires forall i :: |r| <= i < |t| ==> IsWhitespace(t[i])
    requires r == "" || !IsWhitespace(r[|r| - 1])
    ensures r == "" || (!IsWhitespace(r[0]) && !IsWhitespace(r[|r| - 1]))
    ensures exists i :: TrimmedAt(s, i, r)
  {
    var i := |s| - |t|;
    assert r == s[i..i + |r|];
    assert r != "" ==> r[0] == t[0];
    forall k | i + |r| <= k < |s|
      ensures IsWhitespace(s[k])
    {
      assert s[k] == t[k - i];
    }
    assert TrimmedAt(s, i, r);
  }

  /** `r` is the slice of `s` from `i` and only whitespace lies around it. */
  predicate TrimmedAt(s: string, i: int, r: string)
  {
    0 <= i <= |s| - |r| && r == s[i..i + |r|]
    && (forall k :: 0 <= k < i ==> IsWhitespace(s[k]))
    && (forall k :: i + |r| <= k < |s| ==> IsWhitespace(s[k]))
  }

  /** A leading run of whitespace is dropped by `trimStart`. */
  lemma {:induction false} TrimStartAfterWhitespace(w: string, t: string)
    requires forall i :: 0 <= i < |w| ==> IsWhitespace(w[i])
    ensures TrimStart(w + t) == TrimStart(t)
  {
    if |w| > 0 {
      assert (w + t)[0] == w[0] && IsWhitespace(w[0]);
      assert (w + t)[1..] == w[1..] + t;
      assert TrimStart(w + t) == TrimStart(w[1..] + t);
      TrimStartAfterWhitespace(w[1..], t);
    } else {
      assert w + t == t;
    }
  }

  /** A leading run of whitespace does not change the trimmed result. */
  lemma TrimAfterWhitespace(w: string, t: string)
    requires forall i :: 0 <= i < |w| ==> IsWhitespace(w[i])
    ensures Trim(w + t) == Trim(t)
  {
    TrimStartAfterWhitespace(w, t);
  }

  /** A string that neither starts nor ends with whitespace is its own trim. */
  lemma {:induction false} TrimClean(s: string)
    requires s == "" || (!IsWhitespace(s[0]) && !IsWhitespace(s[|s| - 1]))
    ensures Trim(s) == s
  {
  }
}
