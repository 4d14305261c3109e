/** The fragment of Java regular expressions that the backend's `@Pattern`
    constraints use: a sequence of bracket classes, each with a repetition
    count (`{m,n}`, `+`, or once), matched against the whole input as
    `Matcher.matches()` does. The matcher backtracks greedily, like Java's; the
    language it accepts is what the rest of the model relies on. */
module JavaRegex {
  import opened Wrappers

  /** A bracket expression such as `[A-Za-z0-9.-]`: a list of character
      ranges, a single character being a range of one. */
  datatype CharClass = CharClass(ranges: seq<(char, char)>)

  predicate InClass(c: char, cls: CharClass)
  {
    exists k :: 0 <= k < |cls.ranges| && cls.ranges[k].0 <= c <= cls.ranges[k].1
  }

  /** A class with its repetition bounds; `hi == None` is unbounded (`+`). */
  datatype Piece = Piece(cls: CharClass, lo: nat, hi: Option<nat>)

  /** A literal character such as `@` or `\.`. */
  function Literal(c: char): Piece
  {
    Piece(CharClass([(c, c)]), 1, Some(1))
  }

  predicate AtMost(p: Piece, n: nat)
  {
    p.hi.None? || n <= p.hi.value
  }

  /** Every character of `s[from..to]` lies in `cls`. */
  predicate Run(s: string, from: nat, to: nat, cls: CharClass)
    requires from <= to <= |s|
  {
    forall i :: from <= i < to ==> InClass(s[i], cls)
  }

  /** The fewest characters `pat` can match: the sum of its lower bounds. */
  function MinLength(pat: seq<Piece>): nat
  {
    if |pat| == 0 then 0 else pat[0].lo + MinLength(pat[1..])
  }

  /** `pat` matches the rest of `s` from index `pos` to the end. */
  predicate MatchAt(pat: seq<Piece>, s: string, pos: nat): (r: bool)
    requires pos <= |s|
    ensures r ==> MinLength(pat) <= |s| - pos
    decreases |pat|, |s| - pos + 1
  {
    if |pat| == 0 then pos == |s|
    else Repeat(pat[0], pat[1..], s, pos, pos)
  }

  /** Piece `p` started at `start` and has consumed `s[start..k]`; it tries
      one more character first, then hands the rest of `s` to `rest`. */
  predicate Repeat(p: Piece, rest: seq<Piece>, s: string, start: nat, k: nat): (r: bool)
    requires start <= k <= |s|
    ensures r ==> p.lo + MinLength(rest) <= |s| - start
    decreases |rest| + 1, |s| - k
  {
    || (k < |s| && AtMost(p, k + 1 - start) && InClass(s[k], p.cls) && Repeat(p, rest, s, start, k + 1))
    || (p.lo <= k - start && AtMost(p, k - start) && MatchAt(rest, s, k))
  }

  /** `s.matches(regex)`: the whole string matches. */
  predicate Matches(pat: seq<Piece>, s: string): (r: bool)
    ensures r ==> MinLength(pat) <= |s|
  {
    MatchAt(pat, s, 0)
  }

  /** Backtracking finds a way to end the piece exactly when one exists. */
  lemma {:induction false} RepeatIff(p: Piece, rest: seq<Piece>, s: string, start: nat, k: nat)
    requires start <= k <= |s|
    ensures Repeat(p, rest, s, start, k) <==>
      exists j :: k <= j <= |s| && p.lo <= j - start && AtMost(p, j - start)
                  && Run(s, k, j, p.cls) && MatchAt(rest, s, j)
    decreases |s| - k
  {
    if Repeat(p, rest, s, start, k) {
      if k < |s| && AtMost(p, k + 1 - start) && InClass(s[k], p.cls) && Repeat(p, rest, s, start, k + 1) {
        RepeatIff(p, rest, s, start, k + 1);
        var j :| k + 1 <= j <= |s| && p.lo <= j - start && AtMost(p, j - start)
                 && Run(s, k + 1, j, p.cls) && MatchAt(rest, s, j);
        assert Run(s, k, j, p.cls);
      } else {
        assert Run(s, k, k, p.cls);
      }
    }
    forall j | k <= j <= |s| && p.lo <= j - start && AtMost(p, j - start)
               && Run(s, k, j, p.cls) && MatchAt(rest, s, j)
      ensures Repeat(p, rest, s, start, k)
    {
      if j > k {
        RepeatIff(p, rest, s, start, k + 1);
        assert InClass(s[k], p.cls) && Run(s, k + 1, j, p.cls);
      }
    }
  }

  /** A pattern matches from `pos` exactly when its first piece can take some
      run `s[pos..j]` of allowed length and the remaining pieces match from `j`. */
  lemma MatchAtCons(pat: seq<Piece>, s: string, pos: nat)
    requires |pat| > 0 && pos <= |s|
    ensures MatchAt(pat, s, pos) <==>
      exists j :: pos <= j <= |s| && pat[0].lo <= j - pos && AtMost(pat[0], j - pos)
                  && Run(s, pos, j, pat[0].cls) && MatchAt(pat[1..], s, j)
  {
    RepeatIff(pat[0], pat[1..], s, pos, pos);
  }
}
