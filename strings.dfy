/** The string operations the engine performs on URL templates, type names and
    enum values: `split('/')`, `slice(-1)[0]`, `filter(x => x)[0]`, the
    capital-letter split `split(/(?=[A-Z])/)`, ASCII case mapping and the
    decimal rendering of integers. */
module Strings {
  import opened Js

  // ---------------------------------------------------------------------
  // split on a one-character separator, and its inverse

  /** `s.split(sep)` for a one-character separator: the maximal runs between
      separators, in order; there is always at least one part. */
  function Split(s: string, sep: char): (parts: seq<string>)
    ensures |parts| >= 1
  {
    if s == [] then [""]
    else
      var rest := Split(s[1..], sep);
      if s[0] == sep then [""] + rest
      else [[s[0]] + rest[0]] + rest[1..]
  }

  /** `parts.join(sep)`. */
  function Join(parts: seq<string>, sep: char): string
    requires |parts| >= 1
  {
    if |parts| == 1 then parts[0] else parts[0] + [sep] + Join(parts[1..], sep)
  }

  predicate NoSep(parts: seq<string>, sep: char) {
    forall i :: 0 <= i < |parts| ==> sep !in parts[i]
  }

  /** Splitting loses nothing: joining the parts gives back the string, and no
      part contains the separator. */
  lemma {:induction false} JoinSplit(s: string, sep: char)
    ensures Join(Split(s, sep), sep) == s
    ensures NoSep(Split(s, sep), sep)
  {
    if s != [] {
      var rest := Split(s[1..], sep);
      JoinSplit(s[1..], sep);
      if s[0] == sep {
        assert ([""] + rest)[1..] == rest;
      } else {
        var parts := [[s[0]] + rest[0]] + rest[1..];
        if |rest| > 1 {
          assert parts[1..] == rest[1..];
        }
        assert s == [s[0]] + s[1..];
      }
    }
  }

  /** A string without the separator splits into itself. */
  lemma {:induction false} SplitNoSep(s: string, sep: char)
    requires sep !in s
    ensures Split(s, sep) == [s]
  {
    if s != [] {
      SplitNoSep(s[1..], sep);
      assert s == [s[0]] + s[1..];
    }
  }

  lemma {:induction false} SplitAfterPart(p: string, sep: char, x: string)
    requires sep !in p
    ensures Split(p + [sep] + x, sep) == [p] + Split(x, sep)
  {
    if p == [] {
      assert p + [sep] + x == [sep] + x;
      assert ([sep] + x)[1..] == x;
    } else {
      SplitAfterPart(p[1..], sep, x);
      assert (p + [sep] + x)[1..] == p[1..] + [sep] + x;
      assert [p[0]] + p[1..] == p;
    }
  }

  /** The other round trip: separator-free parts are recovered by splitting
      their join. */
  lemma {:induction false} SplitJoin(parts: seq<string>, sep: char)
    requires |parts| >= 1 && NoSep(parts, sep)
    ensures Split(Join(parts, sep), sep) == parts
  {
    if |parts| == 1 {
      SplitNoSep(parts[0], sep);
    } else {
      SplitJoin(parts[1..], sep);
      SplitAfterPart(parts[0], sep, Join(parts[1..], sep));
      assert [parts[0]] + parts[1..] == parts;
    }
  }

  lemma {:induction false} JoinLast(parts: seq<string>, sep: char)
    requires |parts| >= 2
    ensures Join(parts, sep) == Join(parts[..|parts| - 1], sep) + [sep] + parts[|parts| - 1]
  {
    if |parts| > 2 {
      JoinLast(parts[1..], sep);
      assert parts[1..][..|parts| - 2] == parts[..|parts| - 1][1..];
    }
  }

  // ---------------------------------------------------------------------
  // names derived from a URL template

  /** `s.split('/').slice(-1)[0]`: the last segment of a path or pointer. */
  function LastSegment(s: string): string {
    var parts := Split(s, '/');
    parts[|parts| - 1]
  }

  /** The last segment is the longest suffix without a slash: it contains no
      slash, and it is either the whole string or preceded by a slash. */
  lemma LastSegmentShape(s: string)
    ensures '/' !in LastSegment(s)
    ensures |LastSegment(s)| <= |s| && s[|s| - |LastSegment(s)|..] == LastSegment(s)
    ensures |LastSegment(s)| < |s| ==> s[|s| - |LastSegment(s)| - 1] == '/'
  {
    var parts := Split(s, '/');
    JoinSplit(s, '/');
    var t := parts[|parts| - 1];
    assert '/' !in t;
    if |parts| >= 2 {
      JoinLast(parts, '/');
      var front := Join(parts[..|parts| - 1], '/');
      assert s == front + ['/'] + t;
      assert s[|s| - |t|..] == t;
      assert s[|s| - |t| - 1] == '/';
    }
  }

  /** `parts.filter(x => x)[0]`: the first non-empty part, if any. */
  function FirstNonEmpty(parts: seq<string>): Option<string> {
    if parts == [] then None
    else if parts[0] != "" then Some(parts[0])
    else FirstNonEmpty(parts[1..])
  }

  /** `getFolderName`: the first non-empty segment of the path, `undefined`
      when the path has none (for instance `"/"`). */
  function FolderName(path: string): Option<string> {
    FirstNonEmpty(Split(path, '/'))
  }

  /** `getActionName`: the last segment of the path followed by `Async`. */
  function ActionName(path: string): string {
    LastSegment(path) + "Async"
  }

  /** The action name is the path's last slash-free stretch, which ends the
      path, followed by `Async`. */
  lemma ActionNameShape(path: string)
    ensures var n := ActionName(path);
      && |n| >= 5 && n[|n| - 5..] == "Async"
      && var stem := n[..|n| - 5];
         '/' !in stem && |stem| <= |path| && path[|path| - |stem|..] == stem
         && (|stem| < |path| ==> path[|path| - |stem| - 1] == '/')
  {
    LastSegmentShape(path);
    assert ActionName(path)[..|ActionName(path)| - 5] == LastSegment(path);
  }

  predicate AllSlashes(s: string) {
    forall k :: 0 <= k < |s| ==> s[k] == '/'
  }

  lemma {:induction false} FirstPartShape(s: string, sep: char)
    ensures var p := Split(s, sep)[0];
      |p| <= |s| && s[..|p|] == p && sep !in p && (|p| < |s| ==> s[|p|] == sep)
  {
    if s != [] && s[0] != sep {
      FirstPartShape(s[1..], sep);
    }
  }

  /** The folder name is undefined exactly when the path is made of slashes
      only; otherwise it is a non-empty, slash-free run that follows a prefix
      of slashes and ends at a slash or at the end of the path. */
  lemma {:induction false} FolderNameShape(path: string)
    ensures FolderName(path).None? <==> AllSlashes(path)
    ensures FolderName(path).Some? ==>
      exists k :: 0 <= k <= |path| && AllSlashes(path[..k]) && FolderSegmentAt(path, k, FolderName(path).value)
  {
    if path != [] {
      var rest := Split(path[1..], '/');
      if path[0] == '/' {
        FolderNameShape(path[1..]);
        assert Split(path, '/') == [""] + rest;
        assert FolderName(path) == FolderName(path[1..]);
        if FolderName(path).Some? {
          var x := FolderName(path).value;
          var k :| 0 <= k <= |path[1..]| && AllSlashes(path[1..][..k]) && FolderSegmentAt(path[1..], k, x);
          assert path[..k + 1] == [path[0]] + path[1..][..k];
          assert path[k + 1..] == path[1..][k..];
          assert FolderSegmentAt(path, k + 1, x);
        } else {
          assert path == [path[0]] + path[1..];
        }
      } else {
        FirstPartShape(path, '/');
        var x := Split(path, '/')[0];
        assert x != "" by { assert x[0] == path[0]; }
        assert FolderName(path) == Some(x);
        assert path[..0] == [];
        assert FolderSegmentAt(path, 0, x);
      }
    }
  }

  /** `x` starts at index `k` of `path` and is followed by a slash or by the end. */
  predicate FolderSegmentAt(path: string, k: nat, x: string) {
    && x != ""
    && '/' !in x
    && k + |x| <= |path|
    && path[k..k + |x|] == x
    && (k + |x| < |path| ==> path[k + |x|] == '/')
  }

  // ---------------------------------------------------------------------
  // the capital-letter split used to name a request-body parameter

  predicate IsUpper(c: char) { 'A' <= c <= 'Z' }

  /** `s.split(/(?=[A-Z])/)`: cut before every ASCII capital letter that is not
      the first character. */
  function CapitalPieces(s: string): (pieces: seq<string>)
    ensures |pieces| >= 1
  {
    if |s| <= 1 then [s]
    else
      var rest := CapitalPieces(s[1..]);
      if IsUpper(s[1]) then [[s[0]]] + rest
      else [[s[0]] + rest[0]] + rest[1..]
  }

  function Concat(parts: seq<string>): string {
    if parts == [] then "" else parts[0] + Concat(parts[1..])
  }

  lemma {:induction false} ConcatLast(parts: seq<string>)
    requires |parts| >= 1
    ensures Concat(parts) == Concat(parts[..|parts| - 1]) + parts[|parts| - 1]
  {
    if |parts| > 1 {
      ConcatLast(parts[1..]);
      assert parts[1..][..|parts| - 2] == parts[..|parts| - 1][1..];
    }
  }

  /** The pieces concatenate back to the string. */
  lemma {:induction false} CapitalPiecesConcat(s: string)
    ensures Concat(CapitalPieces(s)) == s
  {
    if |s| > 1 {
      var rest := CapitalPieces(s[1..]);
      CapitalPiecesConcat(s[1..]);
      assert s == [s[0]] + s[1..];
      if !IsUpper(s[1]) {
        assert Concat(rest) == rest[0] + Concat(rest[1..]);
      }
    } else {
      assert Concat([s]) == s + Concat([]);
    }
  }

  /** The first piece is non-empty when the string is, and every later
      piece starts with a capital. */
  lemma {:induction false} CapitalPiecesStarts(s: string)
    ensures |s| > 0 ==> CapitalPieces(s)[0] != ""
    ensures forall i :: 0 < i < |CapitalPieces(s)| ==>
      CapitalPieces(s)[i] != "" && IsUpper(CapitalPieces(s)[i][0])
  {
    if |s| > 1 {
      var rest := CapitalPieces(s[1..]);
      CapitalPiecesStarts(s[1..]);
      CapitalPiecesConcat(s[1..]);
      var pieces := CapitalPieces(s);
      if IsUpper(s[1]) {
        assert pieces[1..] == rest;
        assert rest[0] != "" && rest[0][0] == s[1] by {
          assert Concat(rest) == rest[0] + Concat(rest[1..]);
        }
      } else {
        assert pieces[1..] == rest[1..];
      }
    }
  }

  /** No piece has a capital after its first character. */
  lemma {:induction false} CapitalPiecesLower(s: string)
    ensures forall i, k :: 0 <= i < |CapitalPieces(s)| && 1 <= k < |CapitalPieces(s)[i]| ==>
      !IsUpper(CapitalPieces(s)[i][k])
  {
    if |s| > 1 {
      var rest := CapitalPieces(s[1..]);
      CapitalPiecesLower(s[1..]);
      var pieces := CapitalPieces(s);
      if IsUpper(s[1]) {
        assert pieces[1..] == rest;
      } else {
        CapitalPiecesConcat(s[1..]);
        CapitalPiecesStarts(s[1..]);
        assert rest[0][0] == s[1] by {
          assert Concat(rest) == rest[0] + Concat(rest[1..]);
        }
        forall i, k | 0 <= i < |pieces| && 1 <= k < |pieces[i]|
          ensures !IsUpper(pieces[i][k])
        {
          if i == 0 {
            assert pieces[0][k] == rest[0][k - 1];
          } else {
            assert pieces[i] == rest[i];
          }
        }
      }
    }
  }

  /** The pieces concatenate back to the string; the first is non-empty when
      the string is; every later piece starts with a capital; no piece has a
      capital after its first character. */
  lemma CapitalPiecesShape(s: string)
    ensures Concat(CapitalPieces(s)) == s
    ensures |s| > 0 ==> CapitalPieces(s)[0] != ""
    ensures forall i :: 0 < i < |CapitalPieces(s)| ==>
      CapitalPieces(s)[i] != "" && IsUpper(CapitalPieces(s)[i][0])
    ensures forall i, k :: 0 <= i < |CapitalPieces(s)| && 1 <= k < |CapitalPieces(s)[i]| ==>
      !IsUpper(CapitalPieces(s)[i][k])
  {
    CapitalPiecesConcat(s);
    CapitalPiecesStarts(s);
    CapitalPiecesLower(s);
  }

  /** `s.split(/(?=[A-Z])/).slice(-1)[0]`. */
  function CamelTail(s: string): string {
    var pieces := CapitalPieces(s);
    pieces[|pieces| - 1]
  }

  /** The tail is the suffix of `s` that starts at its last capital letter
      (not counting the first character), or all of `s` when there is none. */
  lemma CamelTailShape(s: string)
    ensures |CamelTail(s)| <= |s| && s[|s| - |CamelTail(s)|..] == CamelTail(s)
    ensures forall k :: 1 <= k < |CamelTail(s)| ==> !IsUpper(CamelTail(s)[k])
    ensures |CamelTail(s)| < |s| ==> CamelTail(s) != "" && IsUpper(CamelTail(s)[0])
  {
    var pieces := CapitalPieces(s);
    CapitalPiecesConcat(s);
    ConcatLast(pieces);
    var t := pieces[|pieces| - 1];
    var front := Concat(pieces[..|pieces| - 1]);
    assert s == front + t;
    assert s[|front|..] == t;
    if |pieces| == 1 {
      assert front == "";
    } else {
      CapitalPiecesStarts(s);
    }
    CapitalPiecesLower(s);
    assert forall k :: 1 <= k < |t| ==> !IsUpper(t[k]);
  }

  // ---------------------------------------------------------------------
  // ASCII case mapping (`toUpperCase`, `toLowerCase`)

  function UpperChar(c: char): char {
    if 'a' <= c <= 'z' then (c as int - 32) as char else c
  }

  function LowerChar(c: char): char {
    if 'A' <= c <= 'Z' then (c as int + 32) as char else c
  }

  function ToUpper(s: string): string {
    seq(|s|, i requires 0 <= i < |s| => UpperChar(s[i]))
  }

  function ToLower(s: string): string {
    seq(|s|, i requires 0 <= i < |s| => LowerChar(s[i]))
  }

  /** Capitals stay capitals. */
  lemma UpperIdempotent(s: string)
    ensures ToUpper(ToUpper(s)) == ToUpper(s)
  {
    forall i | 0 <= i < |s|
      ensures UpperChar(UpperChar(s[i])) == UpperChar(s[i])
    {
    }
  }

  // ---------------------------------------------------------------------
  // `${n}` for an integer

  function DigitChar(d: nat): char
    requires d < 10
  {
    "0123456789"[d]
  }

  function NatText(n: nat): string {
    if n < 10 then [DigitChar(n)] else NatText(n / 10) + [DigitChar(n % 10)]
  }

  function IntText(n: int): string {
    if n < 0 then "-" + NatText(-n) else NatText(n)
  }
}
