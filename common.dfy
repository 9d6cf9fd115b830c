/** Failure-compatible wrappers used for Java's nullable values and thrown exceptions. */
module Wrappers {
  /** A nullable value: `None` stands for Java's `null`. */
  datatype Option<+T> = None | Some(value: T)

  /** The value of a call that either returns or throws. */
  datatype Result<+R, +E> = Success(value: R) | Failure(error: E)

  /** The value of a `void` call that either returns or throws. */
  datatype Outcome<+E> = Pass | Fail(error: E)
}

/** String helpers standing for `String`, `StringBuilder` and Spring's `StringUtils`. */
module Strings {
  import opened Wrappers

  function DigitChar(d: nat): (c: char)
    requires d < 10
    ensures '0' <= c <= '9' && c as int - '0' as int == d
  {
    ['0', '1', '2', '3', '4', '5', '6', '7', '8', '9'][d]
  }

  /** Decimal digits of a natural number, as `Integer.toString` writes them. */
  function NatToString(n: nat): (s: string)
    ensures |s| >= 1 && (forall i :: 0 <= i < |s| ==> '0' <= s[i] <= '9')
    ensures n < 10 <==> |s| == 1
  {
    if n < 10 then [DigitChar(n)] else NatToString(n / 10) + [DigitChar(n % 10)]
  }

  /** Decimal notation of an integer, with a leading '-' when it is negative. */
  function IntToString(i: int): string
  {
    if i < 0 then "-" + NatToString(-i) else NatToString(i)
  }

  /** The value of a non-empty run of decimal digits: the partner of `NatToString`. */
  function DigitsValue(s: string): int
  {
    if s == [] then 0 else DigitsValue(s[..|s| - 1]) * 10 + (s[|s| - 1] as int - '0' as int)
  }

  lemma {:induction false} NatToStringRoundTrip(n: nat)
    ensures DigitsValue(NatToString(n)) == n
  {
    if n >= 10 {
      var s := NatToString(n);
      assert s[..|s| - 1] == NatToString(n / 10);
      NatToStringRoundTrip(n / 10);
    }
  }

  /** Different numbers are written differently. */
  lemma NatToStringInjective(m: nat, n: nat)
    requires NatToString(m) == NatToString(n)
    ensures m == n
  {
    NatToStringRoundTrip(m);
    NatToStringRoundTrip(n);
  }

  predicate StartsWith(s: string, prefix: string)
  {
    |prefix| <= |s| && s[..|prefix|] == prefix
  }

  predicate EndsWith(s: string, suffix: string)
  {
    |suffix| <= |s| && s[|s| - |suffix|..] == suffix
  }

  /** `t` occurs in `s` starting at index `i`. */
  predicate OccursAt(s: string, t: string, i: int)
  {
    0 <= i && i + |t| <= |s| && s[i..i + |t|] == t
  }

  predicate Contains(s: string, t: string)
  {
    exists i :: 0 <= i <= |s| - |t| && OccursAt(s, t, i)
  }

  /** `String.indexOf(t, from)`: the first occurrence at or after `from`, or -1. */
  function IndexOfFrom(s: string, t: string, from: nat): (r: int)
    requires |t| > 0
    ensures r == -1 || (from <= r && OccursAt(s, t, r))
    ensures forall i :: from <= i && (r == -1 || i < r) ==> !OccursAt(s, t, i)
    decreases |s| - from
  {
    if from + |t| > |s| then -1
    else if s[from..from + |t|] == t then from
    else IndexOfFrom(s, t, from + 1)
  }

  function IndexOf(s: string, t: string): (r: int)
    requires |t| > 0
    ensures r == -1 || OccursAt(s, t, r)
    ensures forall i :: 0 <= i && (r == -1 || i < r) ==> !OccursAt(s, t, i)
  {
    IndexOfFrom(s, t, 0)
  }

  /** `String.lastIndexOf(t)` restricted to start positions below `bound`, or -1. */
  function LastIndexBelow(s: string, t: string, bound: nat): (r: int)
    requires |t| > 0
    ensures r == -1 || (r < bound && OccursAt(s, t, r))
    ensures forall i :: r < i < bound ==> !OccursAt(s, t, i)
  {
    if bound == 0 then -1
    else if OccursAt(s, t, bound - 1) then bound - 1
    else LastIndexBelow(s, t, bound - 1)
  }

  function LastIndexOf(s: string, t: string): (r: int)
    requires |t| > 0
    ensures r == -1 || OccursAt(s, t, r)
    ensures forall i :: r < i ==> !OccursAt(s, t, i)
  {
    LastIndexBelow(s, t, |s| + 1)
  }

  /** `String.replace(t, r)`: every occurrence of `t`, found from left to right, is replaced. */
  function ReplaceAll(s: string, t: string, r: string): (replaced: string)
    requires |t| > 0
    ensures |r| <= |t| ==> |replaced| <= |s|
    decreases |s|
  {
    if |s| < |t| then s
    else if s[..|t|] == t then r + ReplaceAll(s[|t|..], t, r)
    else [s[0]] + ReplaceAll(s[1..], t, r)
  }

  /** Parts joined with a separator, as `String.join` and a builder loop write them. */
  function Join(parts: seq<string>, separator: string): string
  {
    if parts == [] then ""
    else if |parts| == 1 then parts[0]
    else Join(parts[..|parts| - 1], separator) + separator + parts[|parts| - 1]
  }

  /** Joining one more part appends the separator and the part, unless nothing came before. */
  lemma JoinAppend(parts: seq<string>, part: string, separator: string)
    ensures Join(parts + [part], separator) == if parts == [] then part else Join(parts, separator) + separator + part
  {
    assert (parts + [part])[..|parts|] == parts;
  }

  /** Two parts join around one separator. */
  lemma JoinTwo(first: string, second: string, separator: string)
    ensures Join([first, second], separator) == first + separator + second
  {
    assert [first, second][..1] == [first];
  }

  /**
   * One step of a `StringBuilder` loop that appends the separator before each part but the
   * first: it extends the join of the parts so far by the next part.
   */
  lemma JoinStep(parts: seq<string>, i: nat, built: string, separator: string)
    requires i < |parts| && built == Join(parts[..i], separator)
    requires |built| == 0 <==> i == 0
    ensures Join(parts[..i + 1], separator) == if |built| != 0 then built + separator + parts[i] else parts[i]
  {
    assert parts[..i + 1] == parts[..i] + [parts[i]];
    JoinAppend(parts[..i], parts[i], separator);
  }

  /** A join of entries that are never empty is empty only when there are none. */
  lemma {:induction false} JoinEmptyIff(parts: seq<string>, separator: string)
    requires forall i | 0 <= i < |parts| :: |parts[i]| > 0
    ensures Join(parts, separator) == "" <==> parts == []
  {
    if |parts| > 1 {
      assert |Join(parts, separator)| >= |parts[|parts| - 1]|;
    }
  }

  /**
   * `Character.isWhitespace`: the ASCII controls tab to carriage return, the four separators
   * U+001C to U+001F, and the Unicode space, line and paragraph separators other than the
   * non-breaking ones (U+00A0, U+2007, U+202F).
   */
  predicate IsWhitespace(c: char)
  {
    c == ' ' || c == '\t' || c == '\n' || c == '\r' || c == '\U{000B}' || c == '\U{000C}'
    || ('\U{001C}' <= c <= '\U{001F}')
    || c == '\U{1680}'
    || ('\U{2000}' <= c <= '\U{2006}') || ('\U{2008}' <= c <= '\U{200A}')
    || c == '\U{2028}' || c == '\U{2029}' || c == '\U{205F}' || c == '\U{3000}'
  }

  /** `StringUtils.hasLength`: not null and not empty. */
  predicate HasLength(s: Option<string>)
  {
    s.Some? && |s.value| > 0
  }

  /** `StringUtils.hasText`: not null and holding a non-whitespace character. */
  predicate HasText(s: Option<string>)
  {
    s.Some? && exists i :: 0 <= i < |s.value| && !IsWhitespace(s.value[i])
  }
}

/** Ordered collections: `LinkedHashSet` insertion, list removal and left-to-right application. */
module Sequences {

  predicate Distinct<T(==)>(s: seq<T>)
  {
    forall i, j :: 0 <= i < j < |s| ==> s[i] != s[j]
  }

  /** The elements of a sequence, as a set. */
  function Elements<T>(s: seq<T>): set<T>
  {
    set x | x in s
  }

  lemma ElementsAppend<T>(s: seq<T>, x: T)
    ensures Elements(s + [x]) == Elements(s) + {x}
  {
  }

  /**
   * `LinkedHashSet.addAll`: each element not yet present is appended, in order;
   * elements already present keep their place.
   */
  function AddAll<T(==, !new)>(s: seq<T>, xs: seq<T>): (r: seq<T>)
    ensures |s| <= |r| && r[..|s|] == s
    ensures forall x :: x in r <==> x in s || x in xs
    ensures Distinct(s) ==> Distinct(r)
    decreases |xs|
  {
    if xs == [] then s
    else AddAll(if xs[0] in s then s else s + [xs[0]], xs[1..])
  }

  /** `new LinkedHashSet<>(xs)`: the elements of `xs` without repeats, first occurrences first. */
  function Dedup<T(==, !new)>(xs: seq<T>): (r: seq<T>)
    ensures Distinct(r) && forall x :: x in r <==> x in xs
  {
    AddAll([], xs)
  }

  /** Adding elements that are all present already leaves a set unchanged. */
  lemma {:induction false} AddAllPresent<T(!new)>(s: seq<T>, xs: seq<T>)
    requires forall x :: x in xs ==> x in s
    ensures AddAll(s, xs) == s
    decreases |xs|
  {
    if xs != [] {
      AddAllPresent(s, xs[1..]);
    }
  }

  /** Adding new distinct elements to a `LinkedHashSet` appends exactly those elements. */
  lemma {:induction false} AddAllFresh<T(!new)>(s: seq<T>, xs: seq<T>)
    requires Distinct(xs) && forall x :: x in xs ==> x !in s
    ensures AddAll(s, xs) == s + xs
    decreases |xs|
  {
    if xs != [] {
      assert xs[0] !in s;
      forall x | x in xs[1..] ensures x !in s + [xs[0]] {
        assert x in xs;
      }
      AddAllFresh(s + [xs[0]], xs[1..]);
      assert s + [xs[0]] + xs[1..] == s + xs;
    }
  }

  /** Adding two batches one after the other is adding their concatenation. */
  lemma {:induction false} AddAllAppend<T(!new)>(s: seq<T>, xs: seq<T>, ys: seq<T>)
    ensures AddAll(AddAll(s, xs), ys) == AddAll(s, xs + ys)
    decreases |xs|
  {
    if xs == [] {
      assert xs + ys == ys;
    } else {
      assert (xs + ys)[0] == xs[0];
      assert (xs + ys)[1..] == xs[1..] + ys;
      AddAllAppend(if xs[0] in s then s else s + [xs[0]], xs[1..], ys);
    }
  }

  /** `List.remove(Object)`: drops the first element equal to `x`, if any. */
  function RemoveFirst<T(==)>(s: seq<T>, x: T): (r: seq<T>)
    ensures x in s ==> |r| == |s| - 1
    ensures x !in s ==> r == s
    ensures forall y :: y in r ==> y in s
  {
    if s == [] then []
    else if s[0] == x then s[1..]
    else [s[0]] + RemoveFirst(s[1..], x)
  }

  /** Applies `fs` in order, each to the previous result: `x = f(x)` in a loop. */
  function ApplyInOrder<T>(x: T, fs: seq<T -> T>): T
  {
    if fs == [] then x else fs[|fs| - 1](ApplyInOrder(x, fs[..|fs| - 1]))
  }

  /** Applying a concatenation is applying the first part, then the second. */
  lemma {:induction false} ApplyInOrderAppend<T>(x: T, fs: seq<T -> T>, gs: seq<T -> T>)
    ensures ApplyInOrder(x, fs + gs) == ApplyInOrder(ApplyInOrder(x, fs), gs)
    decreases |gs|
  {
    if gs == [] {
      assert fs + gs == fs;
    } else {
      var gs' := gs[..|gs| - 1];
      assert (fs + gs)[..|fs + gs| - 1] == fs + gs';
      ApplyInOrderAppend(x, fs, gs');
    }
  }

  /** The first function applied sees the original value. */
  lemma ApplyInOrderFirst<T>(x: T, f: T -> T, fs: seq<T -> T>)
    ensures ApplyInOrder(x, [f] + fs) == ApplyInOrder(f(x), fs)
  {
    ApplyInOrderAppend(x, [f], fs);
    assert ApplyInOrder(x, [f]) == f(ApplyInOrder(x, [])) by {
      assert [f][..0] == [];
    }
  }
}

/** `java.time.Duration`, held as its total number of nanoseconds. */
module Durations {
  type Duration = int

  const NANOS_PER_MILLI := 1_000_000
  const NANOS_PER_SECOND := 1_000_000_000

  /** Java's integer division of longs, which rounds toward zero. */
  function TruncDiv(a: int, b: int): int
    requires b > 0
  {
    if a >= 0 then a / b else -((-a) / b)
  }

  /** `Duration.toMillis`: whole milliseconds, rounded toward zero. */
  function ToMillis(d: Duration): (m: int)
    ensures m > 0 <==> d >= NANOS_PER_MILLI
    ensures m >= 0 <==> d > -NANOS_PER_MILLI
  {
    TruncDiv(d, NANOS_PER_MILLI)
  }

  /** `Duration.getSeconds`: the whole seconds, rounded down (the nanosecond part is never negative). */
  function GetSeconds(d: Duration): (s: int)
    ensures s * NANOS_PER_SECOND <= d < s * NANOS_PER_SECOND + NANOS_PER_SECOND
  {
    d / NANOS_PER_SECOND
  }

  /** `Duration.toMinutes`: `getSeconds() / 60` in Java arithmetic. */
  function ToMinutes(d: Duration): int
  {
    TruncDiv(GetSeconds(d), 60)
  }
}

/** Java's narrowing `(int)` cast of a `long`, which keeps the low 32 bits. */
module JavaInts {
  const INT_MIN := -0x8000_0000
  const INT_MAX := 0x7FFF_FFFF

  function IntCast(x: int): (r: int)
    ensures INT_MIN <= r <= INT_MAX
    ensures (r - x) % 0x1_0000_0000 == 0
  {
    (x - INT_MIN) % 0x1_0000_0000 + INT_MIN
  }

  /** A value that fits in an `int` is kept by the cast. */
  lemma IntCastInRange(x: int)
    requires INT_MIN <= x <= INT_MAX
    ensures IntCast(x) == x
  {
  }
}
