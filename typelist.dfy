/**
 * Space-separated lists of event types. `on` and `un` accept a string such as
 * "click mouseover" and treat it as the list `e.split(' ')` (lines 55-61, 125-131).
 */
module TypeList {

  const Space: char := ' '

  /**
   * `s.split(' ')` with JavaScript's semantics: one piece per separator plus one,
   * pieces may be empty ("a  b" gives "a", "", "b") and no piece holds a space.
   */
  function Split(s: string): (pieces: seq<string>)
    ensures |pieces| >= 1
    ensures forall i | 0 <= i < |pieces| :: Space !in pieces[i]
    ensures |pieces| == Spaces(s) + 1
  {
    if s == [] then [""]
    else
      var rest := Split(s[1..]);
      if s[0] == Space then [""] + rest
      else [[s[0]] + rest[0]] + rest[1..]
  }

  /** The number of separators in `s`. */
  function Spaces(s: string): nat
  {
    if s == [] then 0 else (if s[0] == Space then 1 else 0) + Spaces(s[1..])
  }

  /** `pieces.join(' ')`, the inverse of `Split`. */
  function Join(pieces: seq<string>): string
    requires |pieces| >= 1
  {
    if |pieces| == 1 then pieces[0] else pieces[0] + [Space] + Join(pieces[1..])
  }

  /** Splitting loses nothing: joining the pieces gives back the original string. */
  lemma {:induction false} JoinSplit(s: string)
    ensures Join(Split(s)) == s
  {
    if s != [] {
      var rest := Split(s[1..]);
      JoinSplit(s[1..]);
      if s[0] == Space {
        assert Split(s) == [""] + rest;
        assert Join(Split(s)) == "" + [Space] + Join(rest);
      } else if |rest| == 1 {
        assert Split(s) == [[s[0]] + rest[0]];
      } else {
        assert Split(s) == [[s[0]] + rest[0]] + rest[1..];
        assert Join(rest) == rest[0] + [Space] + Join(rest[1..]);
        assert ([[s[0]] + rest[0]] + rest[1..])[1..] == rest[1..];
      }
    }
  }

  /** A space-free prefix extends the first piece of what follows it. */
  lemma {:induction false} SplitPrefix(p: string, t: string)
    requires Space !in p
    ensures Split(p + t) == [p + Split(t)[0]] + Split(t)[1..]
  {
    if p == [] {
      assert p + t == t;
      assert p + Split(t)[0] == Split(t)[0];
      assert [Split(t)[0]] + Split(t)[1..] == Split(t);
    } else {
      assert (p + t)[1..] == p[1..] + t;
      SplitPrefix(p[1..], t);
      assert [p[0]] + (p[1..] + Split(t)[0]) == p + Split(t)[0];
    }
  }

  /** Splitting a join of space-free pieces gives back exactly those pieces. */
  lemma {:induction false} SplitJoin(pieces: seq<string>)
    requires |pieces| >= 1
    requires forall i | 0 <= i < |pieces| :: Space !in pieces[i]
    ensures Split(Join(pieces)) == pieces
  {
    if |pieces| == 1 {
      SplitPrefix(pieces[0], "");
      assert pieces[0] + "" == pieces[0];
    } else {
      var tail := [Space] + Join(pieces[1..]);
      assert Join(pieces) == pieces[0] + tail;
      SplitPrefix(pieces[0], tail);
      SplitJoin(pieces[1..]);
      assert tail[1..] == Join(pieces[1..]);
      assert Split(tail) == [""] + pieces[1..];
      assert pieces[0] + "" == pieces[0];
      assert [pieces[0]] + pieces[1..] == pieces;
    }
  }

  /** A join of two or more pieces holds a separator. */
  lemma JoinHasSpace(pieces: seq<string>)
    requires |pieces| >= 2
    ensures Space in Join(pieces)
  {
    assert Join(pieces)[|pieces[0]|] == Space;
  }
}
