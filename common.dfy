/** Shared vocabulary of the manager model: optional values, the opaque
    identifiers and timestamps of MongoDB documents, and the few pieces of
    Go's `strings` and `path/filepath` packages that the manager relies on. */
module Common {

  datatype Option<+T> = None | Some(value: T)

  /** The value of an optional setting or field: the new value when present. */
  function SetOr<T>(v: Option<T>, prev: T): T
  {
    if v.Some? then v.value else prev
  }

  /** A MongoDB ObjectId; only equality matters to the manager. */
  type ObjectId = nat

  /** Instants and durations, in nanoseconds (Go's time.Time / time.Duration). */
  type Time = int
  type Duration = int

  const Second: Duration := 1_000_000_000
  const Minute: Duration := 60 * Second
  const Hour: Duration := 60 * Minute

  /** The range of time.Duration, an int64 count of nanoseconds. */
  const MaxDuration: Duration := 0x7fff_ffff_ffff_ffff
  const MinDuration: Duration := -0x8000_0000_0000_0000

  /** The zero time.Time, January 1 of year 1 UTC, in nanoseconds since the Unix epoch. */
  const ZeroTime: Time := -62135596800 * Second

  /** t.Sub(u): the elapsed time, saturated to the range of time.Duration. */
  function Sub(t: Time, u: Time): (d: Duration)
    ensures MinDuration <= d <= MaxDuration
  {
    if t - u > MaxDuration then MaxDuration
    else if t - u < MinDuration then MinDuration
    else t - u
  }

  /** Moving one element from the to-do part to the done part of a set. */
  lemma TodoStep<K>(all: set<K>, todo: set<K>, done: set<K>, k: K)
    requires todo <= all && done == all - todo && k in todo
    ensures todo - {k} <= all && done + {k} == all - (todo - {k}) && k !in done
  {
  }

  /** Once nothing is left to do, everything is done. */
  lemma TodoDone<K>(all: set<K>, todo: set<K>, done: set<K>)
    requires done == all - todo && todo == {}
    ensures done == all
  {
  }

  /** `a` is `b` with some elements left out, the others kept in order. */
  ghost predicate SubsequenceOf<T>(a: seq<T>, b: seq<T>)
    decreases |b|
  {
    |a| == 0 || (|b| > 0 && ((a[0] == b[0] && SubsequenceOf(a[1..], b[1..])) || SubsequenceOf(a, b[1..])))
  }

  /** Appending to the longer sequence keeps a subsequence, whether or not the
      shorter one takes the appended element too. */
  lemma {:induction false} SubsequenceAppend<T>(a: seq<T>, b: seq<T>, x: T)
    requires SubsequenceOf(a, b)
    ensures SubsequenceOf(a, b + [x]) && SubsequenceOf(a + [x], b + [x])
    decreases |b|
  {
    if |b| == 0 {
      assert a == [];
      assert a + [x] == [x] && b + [x] == [x];
      assert [x][1..] == [];
    } else {
      assert (b + [x])[1..] == b[1..] + [x];
      if |a| == 0 {
        assert a + [x] == [x];
        SubsequenceAppend(a, b[1..], x);
      } else {
        assert (a + [x])[1..] == a[1..] + [x];
        if a[0] == b[0] && SubsequenceOf(a[1..], b[1..]) {
          SubsequenceAppend(a[1..], b[1..], x);
        } else {
          SubsequenceAppend(a, b[1..], x);
        }
      }
    }
  }

  // ---------------------------------------------------------------------
  // strings.Split / strings.Join with a one-character separator

  /** strings.Split(s, string(sep)): the pieces between separators; never empty. */
  function Split(s: string, sep: char): (r: seq<string>)
    ensures |r| >= 1
    decreases |s|
  {
    if |s| == 0 then [""]
    else if s[0] == sep then [""] + Split(s[1..], sep)
    else
      var rest := Split(s[1..], sep);
      [[s[0]] + rest[0]] + rest[1..]
  }

  /** strings.Join(parts, string(sep)). */
  function Join(parts: seq<string>, sep: char): string
    decreases |parts|
  {
    if |parts| == 0 then ""
    else if |parts| == 1 then parts[0]
    else parts[0] + [sep] + Join(parts[1..], sep)
  }

  /** Number of occurrences of `c` in `s`. */
  function Count(s: string, c: char): nat
    decreases |s|
  {
    if |s| == 0 then 0 else (if s[0] == c then 1 else 0) + Count(s[1..], c)
  }

  lemma {:induction false} CountAppend(a: string, b: string, c: char)
    ensures Count(a + b, c) == Count(a, c) + Count(b, c)
    decreases |a|
  {
    if |a| == 0 {
      assert a + b == b;
    } else {
      assert (a + b)[1..] == a[1..] + b;
      CountAppend(a[1..], b, c);
    }
  }

  /** Joining what Split produced gives back the original text. */
  lemma {:induction false} JoinSplit(s: string, sep: char)
    ensures Join(Split(s, sep), sep) == s
    decreases |s|
  {
    if |s| > 0 {
      JoinSplit(s[1..], sep);
      var rest := Split(s[1..], sep);
      if s[0] == sep {
        JoinSplitSeparator(s, sep, rest);
      } else {
        JoinSplitOther(s, sep, rest);
      }
    }
  }

  lemma JoinSplitSeparator(s: string, sep: char, rest: seq<string>)
    requires |s| > 0 && s[0] == sep && rest == Split(s[1..], sep) && Join(rest, sep) == s[1..]
    ensures Join(Split(s, sep), sep) == s
  {
    assert Split(s, sep) == [""] + rest;
    assert (([""] + rest)[1..]) == rest;
    if |rest| == 1 {
      assert Join([""] + rest, sep) == "" + [sep] + rest[0];
    }
  }

  lemma JoinSplitOther(s: string, sep: char, rest: seq<string>)
    requires |s| > 0 && s[0] != sep && rest == Split(s[1..], sep) && Join(rest, sep) == s[1..]
    ensures Join(Split(s, sep), sep) == s
  {
    var r := Split(s, sep);
    assert r == [[s[0]] + rest[0]] + rest[1..];
    if |rest| == 1 {
      assert Join(r, sep) == [s[0]] + rest[0];
    } else {
      assert r[1..] == rest[1..];
      assert Join(rest, sep) == rest[0] + [sep] + Join(rest[1..], sep);
      assert Join(r, sep) == [s[0]] + rest[0] + [sep] + Join(rest[1..], sep);
    }
  }

  /** No piece produced by Split contains the separator. */
  lemma {:induction false} SplitPiecesFree(s: string, sep: char)
    ensures forall i :: 0 <= i < |Split(s, sep)| ==> sep !in Split(s, sep)[i]
    decreases |s|
  {
    if |s| > 0 {
      SplitPiecesFree(s[1..], sep);
    }
  }

  /** Joining n separator-free pieces yields exactly n - 1 separators. */
  lemma {:induction false} CountJoin(parts: seq<string>, sep: char)
    requires |parts| >= 1
    requires forall i :: 0 <= i < |parts| ==> sep !in parts[i]
    ensures Count(Join(parts, sep), sep) == |parts| - 1
    decreases |parts|
  {
    NoOccurrenceCountZero(parts[0], sep);
    if |parts| > 1 {
      CountJoin(parts[1..], sep);
      CountAppend(parts[0] + [sep], Join(parts[1..], sep), sep);
      CountAppend(parts[0], [sep], sep);
    }
  }

  lemma {:induction false} NoOccurrenceCountZero(s: string, c: char)
    requires c !in s
    ensures Count(s, c) == 0
    decreases |s|
  {
    if |s| > 0 {
      assert s[0] != c;
      assert forall i :: 0 <= i < |s[1..]| ==> s[1..][i] == s[i + 1];
      NoOccurrenceCountZero(s[1..], c);
    }
  }

  /** Dropping leading pieces keeps a suffix of the joined text. */
  lemma {:induction false} JoinDropIsSuffix(parts: seq<string>, k: nat, sep: char)
    requires k < |parts|
    ensures IsSuffix(Join(parts[k..], sep), Join(parts, sep))
    decreases k
  {
    if k > 0 {
      JoinDropIsSuffix(parts[1..], k - 1, sep);
      assert parts[1..][k - 1..] == parts[k..];
      var tail := Join(parts[1..], sep);
      assert Join(parts, sep) == (parts[0] + [sep]) + tail;
      SuffixOfAppend(Join(parts[k..], sep), tail, parts[0] + [sep]);
    }
  }

  /** Dropping k > 0 leading pieces keeps exactly what follows a separator. */
  lemma {:induction false} JoinDropAfterSeparator(parts: seq<string>, k: nat, sep: char)
    requires 0 < k < |parts|
    ensures |Join(parts[k..], sep)| < |Join(parts, sep)|
    ensures Join(parts, sep)[|Join(parts, sep)| - |Join(parts[k..], sep)| - 1] == sep
    decreases k
  {
    var tail := Join(parts[1..], sep);
    assert Join(parts, sep) == (parts[0] + [sep]) + tail;
    if k > 1 {
      JoinDropAfterSeparator(parts[1..], k - 1, sep);
      assert parts[1..][k - 1..] == parts[k..];
    }
  }

  ghost predicate IsSuffix(a: string, b: string)
  {
    |a| <= |b| && b[|b| - |a|..] == a
  }

  lemma SuffixOfAppend(a: string, b: string, prefix: string)
    requires IsSuffix(a, b)
    ensures IsSuffix(a, prefix + b)
  {
    assert (prefix + b)[|prefix + b| - |a|..] == b[|b| - |a|..];
  }

  // ---------------------------------------------------------------------
  // strings.TrimSpace / strings.TrimRight

  /** unicode.IsSpace, the white space strings.TrimSpace removes. */
  predicate IsSpace(c: char)
  {
    c == ' ' || c == '\t' || c == '\n' || c == '\r' || c == '\U{B}' || c == '\U{C}'
    || c == '\U{85}' || c == '\U{A0}' || c == '\U{1680}' || '\U{2000}' <= c <= '\U{200A}'
    || c == '\U{2028}' || c == '\U{2029}' || c == '\U{202F}' || c == '\U{205F}' || c == '\U{3000}'
  }

  function TrimLeftSpace(s: string): (r: string)
    ensures IsSuffix(r, s)
    ensures |r| > 0 ==> !IsSpace(r[0])
    decreases |s|
  {
    if |s| > 0 && IsSpace(s[0]) then TrimLeftSpace(s[1..]) else s
  }

  function TrimRightSpace(s: string): (r: string)
    ensures |r| <= |s| && r == s[..|r|]
    ensures |r| > 0 ==> !IsSpace(r[|r| - 1])
    decreases |s|
  {
    if |s| > 0 && IsSpace(s[|s| - 1]) then TrimRightSpace(s[..|s| - 1]) else s
  }

  /** strings.TrimSpace: drop leading and trailing white space. */
  function TrimSpace(s: string): string
  {
    TrimRightSpace(TrimLeftSpace(s))
  }

  /** strings.TrimRight(s, string(c)): drop every trailing `c`. */
  function TrimRight(s: string, c: char): (r: string)
    decreases |s|
  {
    if |s| > 0 && s[|s| - 1] == c then TrimRight(s[..|s| - 1], c) else s
  }

  /** TrimRight keeps a prefix, leaves no trailing `c`, and removes only `c`s. */
  lemma {:induction false} TrimRightSpec(s: string, c: char)
    ensures var r := TrimRight(s, c);
      && |r| <= |s| && s[..|r|] == r
      && (|r| > 0 ==> r[|r| - 1] != c)
      && forall i :: |r| <= i < |s| ==> s[i] == c
    decreases |s|
  {
    if |s| > 0 && s[|s| - 1] == c {
      TrimRightSpec(s[..|s| - 1], c);
    }
  }

  // ---------------------------------------------------------------------
  // Case handling (ASCII letters)

  function ToLowerChar(c: char): char
  {
    if 'A' <= c <= 'Z' then (c as int + 32) as char else c
  }

  /** strings.ToLower on ASCII letters. */
  function ToLower(s: string): (r: string)
    ensures |r| == |s|
    ensures forall i :: 0 <= i < |s| ==> r[i] == ToLowerChar(s[i])
  {
    seq(|s|, i requires 0 <= i < |s| => ToLowerChar(s[i]))
  }

  /** strings.EqualFold restricted to ASCII case folding. */
  predicate EqualFold(a: string, b: string)
  {
    ToLower(a) == ToLower(b)
  }

  // ---------------------------------------------------------------------
  // filepath.Ext (slash-separated paths)

  /** filepath.Ext: the suffix from the last '.' of the final path element, or "". */
  function Ext(p: string): (r: string)
    ensures r == "" || (r[0] == '.' && IsSuffix(r, p) && '/' !in r && '.' !in r[1..])
    ensures r == "" ==> forall i :: 0 <= i < |p| && p[i] == '.' ==> '/' in p[i + 1..]
    decreases |p|
  {
    if |p| == 0 then ""
    else
      var c := p[|p| - 1];
      if c == '/' then ""
      else if c == '.' then "."
      else
        var e := Ext(p[..|p| - 1]);
        if e == "" then ""
        else
          assert p == p[..|p| - 1] + [c];
          assert (e + [c])[1..] == e[1..] + [c];
          e + [c]
  }
}
