/**
 * The display re-formatter of `src/utils/dates.ts`: an ISO date `YYYY-MM-DD`
 * is split on `-` and its first three parts are emitted in the order
 * third, second, first, joined by `-`.
 */
module Dates {

  /** What a JavaScript template literal prints for a missing array element. */
  const Undefined: string := "undefined"

  /** Number of `-` characters in `s`. */
  function Dashes(s: string): nat
  {
    if |s| == 0 then 0 else (if s[0] == '-' then 1 else 0) + Dashes(s[1..])
  }

  /**
   * JavaScript's `s.split("-")`: the maximal dash-free pieces of `s`, in
   * order; the empty string splits into one empty piece and every dash
   * separates two (possibly empty) pieces.
   */
  function Split(s: string): (parts: seq<string>)
    ensures |parts| == Dashes(s) + 1
    ensures forall i :: 0 <= i < |parts| ==> '-' !in parts[i]
  {
    if |s| == 0 then [""]
    else
      var rest := Split(s[1..]);
      if s[0] == '-' then [""] + rest
      else [[s[0]] + rest[0]] + rest[1..]
  }

  /** JavaScript's `parts.join("-")`. */
  function Join(parts: seq<string>): string
  {
    if |parts| == 0 then ""
    else if |parts| == 1 then parts[0]
    else parts[0] + "-" + Join(parts[1..])
  }

  /** Array destructuring: element `i`, or `undefined` past the end. */
  function Part(parts: seq<string>, i: nat): string
  {
    if i < |parts| then parts[i] else Undefined
  }

  /** `formatDateDisplay` (dates.ts:1-4). */
  function FormatDateDisplay(dateStr: string): string
  {
    var parts := Split(dateStr);
    var year, month, day := Part(parts, 0), Part(parts, 1), Part(parts, 2);
    day + "-" + month + "-" + year
  }

  // ---------------------------------------------------------------------------
  // split and join are inverse to each other

  lemma {:induction false} DashFreeSplit(a: string)
    requires '-' !in a
    ensures Split(a) == [a]
  {
    if |a| > 0 {
      DashFreeSplit(a[1..]);
      assert [a[0]] + a[1..] == a;
    }
  }

  /** Splitting `a-t` with a dash-free `a` yields `a` followed by the pieces of `t`. */
  lemma {:induction false} SplitPrefix(a: string, t: string)
    requires '-' !in a
    ensures Split(a + "-" + t) == [a] + Split(t)
  {
    if |a| > 0 {
      assert (a + "-" + t)[1..] == a[1..] + "-" + t;
      SplitPrefix(a[1..], t);
      assert [a[0]] + a[1..] == a;
    } else {
      assert a + "-" + t == "-" + t;
    }
  }

  /** Joining the pieces of a split gives back the original string. */
  lemma {:induction false} JoinSplit(s: string)
    ensures Join(Split(s)) == s
  {
    if |s| > 0 {
      JoinSplit(s[1..]);
      var rest := Split(s[1..]);
      if s[0] == '-' {
        assert Split(s) == [""] + rest;
        assert Split(s)[1..] == rest;
        assert s == "-" + s[1..];
      } else {
        var parts := Split(s);
        assert parts[1..] == rest[1..];
        if |rest| == 1 {
          assert s == [s[0]] + s[1..];
        } else {
          assert Join(rest) == rest[0] + "-" + Join(rest[1..]);
          assert s == [s[0]] + s[1..];
        }
      }
    }
  }

  /** Splitting a join of dash-free pieces gives back the pieces. */
  lemma {:induction false} SplitJoin(parts: seq<string>)
    requires |parts| >= 1
    requires forall i :: 0 <= i < |parts| ==> '-' !in parts[i]
    ensures Split(Join(parts)) == parts
  {
    if |parts| == 1 {
      DashFreeSplit(parts[0]);
    } else {
      SplitJoin(parts[1..]);
      SplitPrefix(parts[0], Join(parts[1..]));
    }
  }

  lemma JoinOfThree(a: string, b: string, c: string)
    ensures Join([a, b, c]) == a + "-" + b + "-" + c
    ensures |Join([a, b, c])| == |a| + |b| + |c| + 2
  {
    assert [a, b, c][1..] == [b, c];
    assert [b, c][1..] == [c];
    assert Join([c]) == c;
    assert Join([b, c]) == b + "-" + c;
    assert Join([a, b, c]) == a + "-" + Join([b, c]);
    assert a + "-" + (b + "-" + c) == a + "-" + b + "-" + c;
  }

  /** Three dash-free pieces joined by dashes split back into those pieces. */
  lemma SplitOfThree(a: string, b: string, c: string)
    requires '-' !in a && '-' !in b && '-' !in c
    ensures Split(a + "-" + b + "-" + c) == [a, b, c]
  {
    assert a + "-" + b + "-" + c == a + "-" + (b + "-" + c);
    DashFreeSplit(c);
    SplitPrefix(b, c);
    SplitPrefix(a, b + "-" + c);
  }

  // ---------------------------------------------------------------------------
  // properties of formatDateDisplay

  /** On a well-formed `y-m-d` (three dash-free parts) the output is `d-m-y`. */
  lemma ThreeParts(y: string, m: string, d: string)
    requires '-' !in y && '-' !in m && '-' !in d
    ensures FormatDateDisplay(y + "-" + m + "-" + d) == d + "-" + m + "-" + y
  {
    SplitOfThree(y, m, d);
  }

  /**
   * With at least two dashes, the output has the pieces third, second, first:
   * the first and third pieces swap and the middle one stays in the middle.
   */
  lemma ComponentSwap(s: string)
    requires Dashes(s) >= 2
    ensures Split(FormatDateDisplay(s)) == [Split(s)[2], Split(s)[1], Split(s)[0]]
  {
    var p := Split(s);
    assert FormatDateDisplay(s) == p[2] + "-" + p[1] + "-" + p[0];
    assert '-' !in p[0] && '-' !in p[1] && '-' !in p[2];
    SplitOfThree(p[2], p[1], p[0]);
  }

  /** On input with exactly two dashes, formatting twice gives back the input. */
  lemma Involution(s: string)
    requires Dashes(s) == 2
    ensures FormatDateDisplay(FormatDateDisplay(s)) == s
  {
    var p := Split(s);
    ComponentSwap(s);
    JoinOfThree(p[0], p[1], p[2]);
    assert p == [p[0], p[1], p[2]];
    JoinSplit(s);
  }

  /** On input with exactly two dashes, the output keeps the length and the two dashes. */
  lemma ShapePreserved(s: string)
    requires Dashes(s) == 2
    ensures |FormatDateDisplay(s)| == |s|
    ensures Dashes(FormatDateDisplay(s)) == 2
  {
    var p := Split(s);
    ComponentSwap(s);
    JoinOfThree(p[2], p[1], p[0]);
    JoinOfThree(p[0], p[1], p[2]);
    assert p == [p[0], p[1], p[2]];
    JoinSplit(s);
  }

  /** Parts after the third are dropped: `a-b-c-rest` becomes `c-b-a`. */
  lemma ExtraPartsDropped(a: string, b: string, c: string, rest: string)
    requires '-' !in a && '-' !in b && '-' !in c
    ensures FormatDateDisplay(a + "-" + b + "-" + c + "-" + rest) == c + "-" + b + "-" + a
  {
    assert a + "-" + b + "-" + c + "-" + rest == a + "-" + (b + "-" + (c + "-" + rest));
    SplitPrefix(c, rest);
    SplitPrefix(b, c + "-" + rest);
    SplitPrefix(a, b + "-" + (c + "-" + rest));
  }

  /** The `a-b-c-d` example. */
  lemma ExtraPartsExample()
    ensures FormatDateDisplay("a-b-c-d") == "c-b-a"
  {
    ExtraPartsDropped("a", "b", "c", "d");
    assert "a" + "-" + "b" + "-" + "c" + "-" + "d" == "a-b-c-d";
  }

  /** Fewer than three parts: the missing ones print as `undefined`. */
  lemma MissingPartsUndefined(s: string)
    requires Dashes(s) < 2
    ensures Dashes(s) == 0 ==> FormatDateDisplay(s) == Undefined + "-" + Undefined + "-" + s
    ensures Dashes(s) == 1 ==> FormatDateDisplay(s) == Undefined + "-" + Split(s)[1] + "-" + Split(s)[0]
  {
    if Dashes(s) == 0 {
      JoinSplit(s);
    }
  }
}
