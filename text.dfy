/** String helpers with the semantics of the JavaScript and Node.js calls the
    build scripts make: `endsWith`, `split`/`join`, `slice(-2)`, ASCII
    `toLowerCase`, `String.prototype.replace` with a string pattern, and
    `path.basename(p, ext)`. */
module Text {

  import opened Values

  predicate EndsWith(s: string, suffix: string) {
    |suffix| <= |s| && s[|s| - |suffix|..] == suffix
  }

  predicate IsUpper(c: char) {
    'A' <= c <= 'Z'
  }

  function LowerChar(c: char): char {
    if IsUpper(c) then (c as int + 32) as char else c
  }

  /** `s.toLowerCase()` restricted to ASCII letters. */
  function ToLower(s: string): (r: string)
    ensures |r| == |s|
    ensures forall i :: 0 <= i < |r| ==> !IsUpper(r[i])
    ensures forall i :: 0 <= i < |r| && !IsUpper(s[i]) ==> r[i] == s[i]
    ensures forall i :: 0 <= i < |r| && IsUpper(s[i]) ==> r[i] as int == s[i] as int + 32
  {
    seq(|s|, i requires 0 <= i < |s| => LowerChar(s[i]))
  }

  /** Lower-casing twice is lower-casing once. */
  lemma ToLowerIdempotent(s: string)
    ensures ToLower(ToLower(s)) == ToLower(s)
  {
  }

  /** `s.split(sep)` for a one-character separator: the maximal runs between
      separators, in order, including empty ones. */
  function Split(s: string, sep: char): (parts: seq<string>)
    ensures |parts| >= 1
    ensures forall i :: 0 <= i < |parts| ==> sep !in parts[i]
  {
    if |s| == 0 then [""]
    else
      var rest := Split(s[1..], sep);
      if s[0] == sep then [""] + rest
      else [[s[0]] + rest[0]] + rest[1..]
  }

  /** `parts.join(sep)` for a non-empty array. */
  function Join(parts: seq<string>, sep: char): string
    requires |parts| >= 1
  {
    if |parts| == 1 then parts[0] else parts[0] + [sep] + Join(parts[1..], sep)
  }

  /** Joining the pieces of a split gives the string back. */
  lemma {:induction false} JoinSplit(s: string, sep: char)
    ensures Join(Split(s, sep), sep) == s
  {
    if |s| > 0 {
      var rest := Split(s[1..], sep);
      JoinSplit(s[1..], sep);
      if s[0] == sep {
        assert Split(s, sep) == [""] + rest;
        assert Join([""] + rest, sep) == "" + [sep] + Join(rest, sep);
        assert s == [s[0]] + s[1..];
      } else {
        var parts := [[s[0]] + rest[0]] + rest[1..];
        assert Split(s, sep) == parts;
        if |rest| == 1 {
          assert Join(parts, sep) == [s[0]] + rest[0];
        } else {
          assert parts[1..] == rest[1..];
          assert Join(rest, sep) == rest[0] + [sep] + Join(rest[1..], sep);
          assert Join(parts, sep) == [s[0]] + rest[0] + [sep] + Join(rest[1..], sep);
        }
        assert s == [s[0]] + s[1..];
      }
    }
  }

  /** Joining a concatenation puts one separator between the two joins. */
  lemma {:induction false} JoinAppend(a: seq<string>, b: seq<string>, sep: char)
    requires |a| >= 1 && |b| >= 1
    ensures Join(a + b, sep) == Join(a, sep) + [sep] + Join(b, sep)
  {
    if |a| == 1 {
      assert (a + b)[1..] == b;
    } else {
      assert (a + b)[1..] == a[1..] + b;
      JoinAppend(a[1..], b, sep);
    }
  }

  /** Number of occurrences of `c` in `s`. */
  function Count(s: string, c: char): nat {
    if |s| == 0 then 0 else (if s[0] == c then 1 else 0) + Count(s[1..], c)
  }

  lemma {:induction false} CountAppend(a: string, b: string, c: char)
    ensures Count(a + b, c) == Count(a, c) + Count(b, c)
  {
    if |a| > 0 {
      assert (a + b)[0] == a[0];
      assert (a + b)[1..] == a[1..] + b;
      CountAppend(a[1..], b, c);
    } else {
      assert a + b == b;
    }
  }

  lemma {:induction false} CountAbsent(s: string, c: char)
    requires c !in s
    ensures Count(s, c) == 0
  {
    if |s| > 0 {
      CountAbsent(s[1..], c);
    }
  }

  /** A join of pieces free of the separator holds one separator fewer than
      there are pieces. */
  lemma {:induction false} CountJoin(parts: seq<string>, sep: char)
    requires |parts| >= 1
    requires forall i :: 0 <= i < |parts| ==> sep !in parts[i]
    ensures Count(Join(parts, sep), sep) == |parts| - 1
  {
    CountAbsent(parts[0], sep);
    if |parts| > 1 {
      CountJoin(parts[1..], sep);
      CountAppend(parts[0], [sep], sep);
      CountAppend(parts[0] + [sep], Join(parts[1..], sep), sep);
    }
  }

  /** `s.split(sep).slice(-2).join(sep)`: the last two pieces of `s`, or the
      only one. */
  function LastTwoSegments(s: string, sep: char): string {
    var parts := Split(s, sep);
    Join(parts[if |parts| >= 2 then |parts| - 2 else 0..], sep)
  }

  /** The last two segments are the longest suffix of `s` holding at most one
      separator: all of `s` when it has at most one separator; otherwise a
      suffix with one separator, preceded by a separator in `s`. */
  lemma LastTwoSegmentsSuffix(s: string, sep: char)
    ensures EndsWith(s, LastTwoSegments(s, sep))
    ensures Count(LastTwoSegments(s, sep), sep) == if Count(s, sep) == 0 then 0 else 1
    ensures Count(s, sep) <= 1 ==> LastTwoSegments(s, sep) == s
    ensures Count(s, sep) >= 2 ==>
              |LastTwoSegments(s, sep)| < |s| && s[|s| - |LastTwoSegments(s, sep)| - 1] == sep
  {
    var parts := Split(s, sep);
    JoinSplit(s, sep);
    CountJoin(parts, sep);
    if |parts| <= 2 {
      assert parts[if |parts| >= 2 then |parts| - 2 else 0..] == parts;
    } else {
      LastTwoOfLonger(parts, sep);
    }
  }

  /** For three or more pieces, the join of the last two is preceded by a
      separator in the join of all. */
  lemma LastTwoOfLonger(parts: seq<string>, sep: char)
    requires |parts| > 2
    requires forall i :: 0 <= i < |parts| ==> sep !in parts[i]
    ensures var whole, r := Join(parts, sep), Join(parts[|parts| - 2..], sep);
      && |r| < |whole| && whole[|whole| - |r|..] == r && whole[|whole| - |r| - 1] == sep
      && Count(r, sep) == 1
  {
    var n := |parts|;
    var head, tail := parts[..n - 2], parts[n - 2..];
    assert head + tail == parts;
    JoinAppend(head, tail, sep);
    CountJoin(tail, sep);
    var front := Join(head, sep) + [sep];
    var r := Join(tail, sep);
    assert Join(parts, sep) == front + r;
    assert (front + r)[|front|..] == r;
    assert (front + r)[|front| - 1] == sep;
  }

  /** The last piece of a split is the part of `s` after its last separator,
      so a suffix free of separators ends `s` exactly when it ends that piece. */
  lemma LastSegmentEndsWith(s: string, sep: char, ext: string)
    requires sep !in ext
    ensures EndsWith(Split(s, sep)[|Split(s, sep)| - 1], ext) <==> EndsWith(s, ext)
  {
    var parts := Split(s, sep);
    var n := |parts|;
    var last := parts[n - 1];
    JoinSplit(s, sep);
    if n > 1 {
      JoinAppend(parts[..n - 1], [last], sep);
      assert parts[..n - 1] + [last] == parts;
      var front := Join(parts[..n - 1], sep) + [sep];
      assert s == front + last;
      assert s[|s| - |last| - 1] == sep;
      if EndsWith(s, ext) {
        assert last[|last| - |ext|..] == s[|s| - |ext|..];
      }
      if EndsWith(last, ext) {
        assert s[|s| - |ext|..] == last[|last| - |ext|..];
      }
    } else {
      assert Join(parts, sep) == last;
    }
  }

  /** `pat` occurs in `s` at position `j`. */
  predicate OccursAt(s: string, pat: string, j: nat) {
    j + |pat| <= |s| && s[j..j + |pat|] == pat
  }

  /** Index of the first occurrence of `pat` in `s`, if any. */
  function IndexOf(s: string, pat: string): (r: Option<nat>)
    ensures r.Some? ==> OccursAt(s, pat, r.value)
    ensures r.Some? ==> forall j: nat :: j < r.value ==> !OccursAt(s, pat, j)
    ensures r.None? ==> forall j: nat :: !OccursAt(s, pat, j)
    decreases |s|
  {
    if |pat| > |s| then None
    else if s[..|pat|] == pat then Some(0)
    else
      match IndexOf(s[1..], pat)
      case None =>
        assert forall j: nat :: 1 <= j ==> OccursAt(s, pat, j) == OccursAt(s[1..], pat, j - 1);
        None
      case Some(k) =>
        assert forall j: nat :: 1 <= j ==> OccursAt(s, pat, j) == OccursAt(s[1..], pat, j - 1);
        Some(k + 1)
  }

  /** `s.replace(pat, rep)` with a string pattern: one occurrence at most is
      replaced, so the length changes by `|rep| - |pat|` exactly when `pat`
      occurs. */
  function ReplaceFirst(s: string, pat: string, rep: string): (r: string)
    ensures (exists i: nat :: OccursAt(s, pat, i)) ==> |r| + |pat| == |s| + |rep|
    ensures (forall j: nat :: !OccursAt(s, pat, j)) ==> r == s
  {
    match IndexOf(s, pat)
    case None => s
    case Some(i) => s[..i] + rep + s[i + |pat|..]
  }

  /** Which occurrence `ReplaceFirst` replaces: the first one, and only it. */
  lemma ReplaceFirstSpec(s: string, pat: string, rep: string, i: nat)
    requires OccursAt(s, pat, i)
    requires forall j: nat :: j < i ==> !OccursAt(s, pat, j)
    ensures ReplaceFirst(s, pat, rep) == s[..i] + rep + s[i + |pat|..]
  {
    var k := IndexOf(s, pat);
    assert k.Some? && !(k.value < i) && !(i < k.value);
  }

  /** `path.basename(dir + "/" + file, ext)`: the trailing `ext` is removed,
      unless that would leave nothing. */
  function Basename(file: string, ext: string): (r: string)
    ensures EndsWith(file, ext) && |file| > |ext| ==> r + ext == file
    ensures !(EndsWith(file, ext) && |file| > |ext|) ==> r == file
  {
    if EndsWith(file, ext) && |file| > |ext| then file[..|file| - |ext|] else file
  }
}
