/** The backend's `User` entity: the patterns its `name` and `email` fields
    must match, the normalisation `setRole` applies before resolving a role
    name, and the constructors and setters that assign its fields. */
module Users {
  import opened Wrappers
  import opened JavaRegex

  predicate IsAsciiLetter(c: char)
  {
    'A' <= c <= 'Z' || 'a' <= c <= 'z'
  }

  predicate IsAsciiDigit(c: char)
  {
    '0' <= c <= '9'
  }

  /** `[a-zA-Z ]` */
  const NameClass := CharClass([('a', 'z'), ('A', 'Z'), (' ', ' ')])
  /** `[A-Za-z0-9+_.-]` */
  const LocalClass := CharClass([('A', 'Z'), ('a', 'z'), ('0', '9'), ('+', '+'), ('_', '_'), ('.', '.'), ('-', '-')])
  /** `[A-Za-z0-9.-]` */
  const DomainClass := CharClass([('A', 'Z'), ('a', 'z'), ('0', '9'), ('.', '.'), ('-', '-')])
  /** `[A-Za-z]` */
  const LetterClass := CharClass([('A', 'Z'), ('a', 'z')])

  /** `^[a-zA-Z ]{3,50}$` */
  const NamePattern := [Piece(NameClass, 3, Some(50))]

  /** The suffixes of the email pattern, from `[A-Za-z]{2,6}` back to the
      whole `^[A-Za-z0-9+_.-]+@[A-Za-z0-9.-]+\.[A-Za-z]{2,6}$`. */
  const TldPattern := [Piece(LetterClass, 2, Some(6))]
  const DotTldPattern := [Literal('.')] + TldPattern
  const DomainPattern := [Piece(DomainClass, 1, None)] + DotTldPattern
  const AtDomainPattern := [Literal('@')] + DomainPattern
  const EmailPattern := [Piece(LocalClass, 1, None)] + AtDomainPattern

  predicate IsNameChar(c: char)
  {
    IsAsciiLetter(c) || c == ' '
  }

  predicate IsLocalChar(c: char)
  {
    IsAsciiLetter(c) || IsAsciiDigit(c) || c == '+' || c == '_' || c == '.' || c == '-'
  }

  predicate IsDomainChar(c: char)
  {
    IsAsciiLetter(c) || IsAsciiDigit(c) || c == '.' || c == '-'
  }

  lemma NameClassIff()
    ensures forall c :: InClass(c, NameClass) <==> IsNameChar(c)
  {
    var r := NameClass.ranges;
    forall c | IsNameChar(c) ensures InClass(c, NameClass) {
      if 'a' <= c <= 'z' { assert r[0] == ('a', 'z'); }
      else if 'A' <= c <= 'Z' { assert r[1] == ('A', 'Z'); }
      else { assert r[2] == (' ', ' '); }
    }
  }

  lemma LocalClassIff()
    ensures forall c :: InClass(c, LocalClass) <==> IsLocalChar(c)
  {
    var r := LocalClass.ranges;
    forall c | IsLocalChar(c) ensures InClass(c, LocalClass) {
      if 'A' <= c <= 'Z' { assert r[0] == ('A', 'Z'); }
      else if 'a' <= c <= 'z' { assert r[1] == ('a', 'z'); }
      else if '0' <= c <= '9' { assert r[2] == ('0', '9'); }
      else if c == '+' { assert r[3] == ('+', '+'); }
      else if c == '_' { assert r[4] == ('_', '_'); }
      else if c == '.' { assert r[5] == ('.', '.'); }
      else { assert r[6] == ('-', '-'); }
    }
  }

  lemma DomainClassIff()
    ensures forall c :: InClass(c, DomainClass) <==> IsDomainChar(c)
  {
    var r := DomainClass.ranges;
    forall c | IsDomainChar(c) ensures InClass(c, DomainClass) {
      if 'A' <= c <= 'Z' { assert r[0] == ('A', 'Z'); }
      else if 'a' <= c <= 'z' { assert r[1] == ('a', 'z'); }
      else if '0' <= c <= '9' { assert r[2] == ('0', '9'); }
      else if c == '.' { assert r[3] == ('.', '.'); }
      else { assert r[4] == ('-', '-'); }
    }
  }

  lemma LetterClassIff()
    ensures forall c :: InClass(c, LetterClass) <==> IsAsciiLetter(c)
  {
    var r := LetterClass.ranges;
    forall c | IsAsciiLetter(c) ensures InClass(c, LetterClass) {
      if 'A' <= c <= 'Z' { assert r[0] == ('A', 'Z'); }
      else { assert r[1] == ('a', 'z'); }
    }
  }

  /** A literal piece takes exactly the one character `c`. */
  lemma LiteralStep(c: char, rest: seq<Piece>, s: string, pos: nat)
    requires pos <= |s|
    ensures MatchAt([Literal(c)] + rest, s, pos) <==> pos < |s| && s[pos] == c && MatchAt(rest, s, pos + 1)
  {
    var pat := [Literal(c)] + rest;
    assert pat[0] == Literal(c) && pat[1..] == rest;
    assert Literal(c).cls.ranges[0] == (c, c);
    MatchAtCons(pat, s, pos);
    if pos < |s| && s[pos] == c && MatchAt(rest, s, pos + 1) {
      assert Run(s, pos, pos + 1, Literal(c).cls);
    }
  }

  /** The name rule written out: 3 to 50 characters, each an ASCII letter or
      a space. */
  predicate ValidName(s: string)
  {
    3 <= |s| <= 50 && forall i :: 0 <= i < |s| ==> IsNameChar(s[i])
  }

  /** The name pattern accepts exactly the names of the rule. */
  lemma NamePatternIff(s: string)
    ensures Matches(NamePattern, s) <==> ValidName(s)
  {
    MatchAtCons(NamePattern, s, 0);
    assert NamePattern[1..] == [];
    NameClassIff();
    if ValidName(s) {
      assert Run(s, 0, |s|, NameClass) && MatchAt(NamePattern[1..], s, |s|);
    }
  }

  /** `s.indexOf(c)`: the first index holding `c`, or -1. */
  function IndexOf(s: string, c: char): (r: int)
    ensures -1 <= r < |s|
    ensures r == -1 <==> c !in s
    ensures 0 <= r ==> s[r] == c && forall i :: 0 <= i < r ==> s[i] != c
    decreases |s|
  {
    if |s| == 0 then -1
    else if s[0] == c then 0
    else
      var r := IndexOf(s[1..], c);
      if r < 0 then -1 else r + 1
  }

  /** `s.lastIndexOf(c)`: the last index holding `c`, or -1. */
  function LastIndexOf(s: string, c: char): (r: int)
    ensures -1 <= r < |s|
    ensures r == -1 <==> c !in s
    ensures 0 <= r ==> s[r] == c && forall i :: r < i < |s| ==> s[i] != c
    decreases |s|
  {
    if |s| == 0 then -1
    else if s[|s| - 1] == c then |s| - 1
    else LastIndexOf(s[..|s| - 1], c)
  }

  /** What may follow the '@': a non-empty run of `[A-Za-z0-9.-]` up to
      the last '.', then 2 to 6 ASCII letters. */
  predicate ValidDomain(s: string, from: nat)
  {
    var dot := LastIndexOf(s, '.');
    && from < dot
    && 2 <= |s| - dot - 1 <= 6
    && (forall i :: from <= i < dot ==> IsDomainChar(s[i]))
    && (forall i :: dot < i < |s| ==> IsAsciiLetter(s[i]))
  }

  /** The email rule written out, splitting at the first '@' and the last
      '.': a non-empty local part of `[A-Za-z0-9+_.-]` before the '@', then a
      domain as `ValidDomain` says. */
  predicate ValidEmail(s: string)
  {
    var at := IndexOf(s, '@');
    && 0 < at
    && (forall i :: 0 <= i < at ==> IsLocalChar(s[i]))
    && ValidDomain(s, at + 1)
  }

  lemma TldStep(s: string, pos: nat)
    requires pos <= |s|
    ensures MatchAt(TldPattern, s, pos) <==>
      2 <= |s| - pos <= 6 && forall i :: pos <= i < |s| ==> IsAsciiLetter(s[i])
  {
    MatchAtCons(TldPattern, s, pos);
    assert TldPattern[1..] == [];
    LetterClassIff();
    if 2 <= |s| - pos <= 6 && forall i :: pos <= i < |s| ==> IsAsciiLetter(s[i]) {
      assert Run(s, pos, |s|, LetterClass) && MatchAt(TldPattern[1..], s, |s|);
    }
  }

  /** `\.[A-Za-z]{2,6}` from `pos` on. */
  lemma DotTldStep(s: string, pos: nat)
    requires pos <= |s|
    ensures MatchAt(DotTldPattern, s, pos) <==>
      pos < |s| && s[pos] == '.' && 2 <= |s| - pos - 1 <= 6
      && forall i :: pos < i < |s| ==> IsAsciiLetter(s[i])
  {
    LiteralStep('.', TldPattern, s, pos);
    if pos < |s| {
      TldStep(s, pos + 1);
    }
  }

  /** `[A-Za-z0-9.-]+\.[A-Za-z]{2,6}` from `pos` on is the domain rule:
      since the letters after the dot hold no '.', that dot is the last one. */
  lemma DomainStep(s: string, pos: nat)
    requires pos <= |s|
    ensures MatchAt(DomainPattern, s, pos) <==> ValidDomain(s, pos)
  {
    MatchAtCons(DomainPattern, s, pos);
    assert DomainPattern[0] == Piece(DomainClass, 1, None) && DomainPattern[1..] == DotTldPattern;
    DomainClassIff();
    if MatchAt(DomainPattern, s, pos) {
      var j :| pos <= j <= |s| && 1 <= j - pos && Run(s, pos, j, DomainClass) && MatchAt(DotTldPattern, s, j);
      DotTldStep(s, j);
      assert LastIndexOf(s, '.') == j;
    }
    if ValidDomain(s, pos) {
      var dot := LastIndexOf(s, '.');
      DotTldStep(s, dot);
      assert Run(s, pos, dot, DomainClass) && MatchAt(DotTldPattern, s, dot);
    }
  }

  /** The email pattern accepts exactly the addresses of the rule. */
  lemma EmailPatternIff(s: string)
    ensures Matches(EmailPattern, s) <==> ValidEmail(s)
  {
    MatchAtCons(EmailPattern, s, 0);
    assert EmailPattern[0] == Piece(LocalClass, 1, None) && EmailPattern[1..] == AtDomainPattern;
    LocalClassIff();
    if Matches(EmailPattern, s) {
      var j :| 0 <= j <= |s| && 1 <= j && Run(s, 0, j, LocalClass) && MatchAt(AtDomainPattern, s, j);
      LiteralStep('@', DomainPattern, s, j);
      assert IndexOf(s, '@') == j;
      DomainStep(s, j + 1);
    }
    if ValidEmail(s) {
      var at := IndexOf(s, '@');
      DomainStep(s, at + 1);
      LiteralStep('@', DomainPattern, s, at);
      assert Run(s, 0, at, LocalClass) && MatchAt(AtDomainPattern, s, at);
    }
  }

  /** A matching address has exactly one '@', with a non-empty local part
      before it. */
  lemma EmailHasOneAt(s: string)
    requires Matches(EmailPattern, s)
    ensures exists k :: 0 < k < |s| && s[k] == '@' && forall i :: 0 <= i < |s| && i != k ==> s[i] != '@'
  {
    EmailPatternIff(s);
    var at := IndexOf(s, '@');
    forall i | at < i < |s| ensures s[i] != '@' {
      var dot := LastIndexOf(s, '.');
      if i < dot {
        assert IsDomainChar(s[i]);
      } else if i > dot {
        assert IsAsciiLetter(s[i]);
      }
    }
  }

  /** Java's `trim()` removes characters up to U+0020 from both ends. */
  predicate IsTrimmed(c: char)
  {
    c <= ' '
  }

  function TrimStart(s: string): (r: string)
    ensures |r| <= |s| && r == s[|s| - |r|..]
    ensures |r| > 0 ==> !IsTrimmed(r[0])
    ensures forall i :: 0 <= i < |s| - |r| ==> IsTrimmed(s[i])
    decreases |s|
  {
    if |s| > 0 && IsTrimmed(s[0]) then TrimStart(s[1..]) else s
  }

  function TrimEnd(s: string): (r: string)
    ensures |r| <= |s| && r == s[..|r|]
    ensures |r| > 0 ==> !IsTrimmed(r[|r| - 1])
    ensures forall i :: |r| <= i < |s| ==> IsTrimmed(s[i])
    decreases |s|
  {
    if |s| > 0 && IsTrimmed(s[|s| - 1]) then TrimEnd(s[..|s| - 1]) else s
  }

  /** How many characters `trim()` cuts from the front of `s`. */
  function LeadingCut(s: string): (n: nat)
    ensures n <= |s| && forall i :: 0 <= i < n ==> IsTrimmed(s[i])
    ensures n < |s| ==> !IsTrimmed(s[n])
  {
    |s| - |TrimStart(s)|
  }

  /** `String.trim()`: the middle slice of `s` that starts and ends with a
      character above U+0020, everything cut off being at most U+0020. */
  function Trim(s: string): (r: string)
    ensures LeadingCut(s) + |r| <= |s| && r == s[LeadingCut(s)..LeadingCut(s) + |r|]
    ensures forall i :: LeadingCut(s) + |r| <= i < |s| ==> IsTrimmed(s[i])
    ensures |r| > 0 ==> !IsTrimmed(r[0]) && !IsTrimmed(r[|r| - 1])
  {
    var t := TrimStart(s);
    var r := TrimEnd(t);
    assert r == s[|s| - |t|..|s| - |t| + |r|];
    r
  }

  /** A string with no trimmable character at either end is its own trim. */
  lemma TrimOfTrimmed(s: string)
    requires |s| > 0 ==> !IsTrimmed(s[0]) && !IsTrimmed(s[|s| - 1])
    ensures Trim(s) == s
  {
  }

  function UpperChar(c: char): (d: char)
    ensures IsTrimmed(d) <==> IsTrimmed(c)
    ensures !('a' <= d <= 'z')
    ensures c != d ==> 'a' <= c <= 'z'
    ensures 'a' <= c <= 'z' ==> d as int == c as int - 32
  {
    if 'a' <= c <= 'z' then (c as int - 32) as char else c
  }

  /** `toUpperCase()` on ASCII: lower-case letters map to upper case, every
      other character is kept. */
  function ToUpper(s: string): (r: string)
    ensures |r| == |s|
    ensures forall i :: 0 <= i < |s| ==> r[i] == UpperChar(s[i])
    decreases |s|
  {
    if |s| == 0 then [] else [UpperChar(s[0])] + ToUpper(s[1..])
  }

  /** The argument `setRole` hands to `UserRole.fromString`. */
  function NormalizeRole(role: string): (r: string)
    ensures |r| > 0 ==> !IsTrimmed(r[0]) && !IsTrimmed(r[|r| - 1])
    ensures forall i :: 0 <= i < |r| ==> !('a' <= r[i] <= 'z')
  {
    ToUpper(Trim(role))
  }

  /** Normalising a normalised role name changes nothing, so padded or
      lower-case spellings of a role all reach `fromString` alike. */
  lemma NormalizeRoleIdempotent(role: string)
    ensures NormalizeRole(NormalizeRole(role)) == NormalizeRole(role)
  {
    var n := NormalizeRole(role);
    TrimOfTrimmed(n);
    assert ToUpper(n) == n;
  }

  /** Blanks around the role name do not matter to `setRole`: any run of
      characters at most U+0020 before and after it is cut away. */
  lemma NormalizeRoleIgnoresPadding(p: string, role: string, q: string)
    requires forall i :: 0 <= i < |p| ==> IsTrimmed(p[i])
    requires forall i :: 0 <= i < |q| ==> IsTrimmed(q[i])
    ensures NormalizeRole(p + role + q) == NormalizeRole(role)
  {
    TrimIgnoresPadding(p, role, q);
  }

  lemma TrimIgnoresPadding(p: string, role: string, q: string)
    requires forall i :: 0 <= i < |p| ==> IsTrimmed(p[i])
    requires forall i :: 0 <= i < |q| ==> IsTrimmed(q[i])
    ensures Trim(p + role + q) == Trim(role)
  {
    assert p + role + q == p + (role + q);
    BlanksTrimAway(p);
    TrimStartAppend(p, role + q);
    TrimStartAppend(role, q);
    if TrimStart(role) == "" {
      BlanksTrimAway(q);
    } else {
      TrimEndBlanks(TrimStart(role), q);
    }
  }

  /** A string of blanks trims to nothing. */
  lemma {:induction false} BlanksTrimAway(p: string)
    requires forall i :: 0 <= i < |p| ==> IsTrimmed(p[i])
    ensures TrimStart(p) == ""
    decreases |p|
  {
    if |p| > 0 {
      BlanksTrimAway(p[1..]);
    }
  }

  /** Blanks appended to `s` are cut again by the end trim. */
  lemma {:induction false} TrimEndBlanks(s: string, q: string)
    requires forall i :: 0 <= i < |q| ==> IsTrimmed(q[i])
    ensures TrimEnd(s + q) == TrimEnd(s)
    decreases |q|
  {
    if |q| == 0 {
      assert s + q == s;
    } else {
      var q' := q[..|q| - 1];
      assert (s + q)[..|s + q| - 1] == s + q';
      TrimEndBlanks(s, q');
    }
  }

  /** Upper-casing twice is upper-casing once. */
  lemma ToUpperIdempotent(s: string)
    ensures ToUpper(ToUpper(s)) == ToUpper(s)
  {
    assert forall i :: 0 <= i < |s| ==> ToUpper(ToUpper(s))[i] == ToUpper(s)[i];
  }

  /** Letter case does not matter to `setRole`. */
  lemma NormalizeRoleIgnoresCase(role: string)
    ensures NormalizeRole(ToUpper(role)) == NormalizeRole(role)
  {
    UpperTrimCommute(role);
    ToUpperIdempotent(Trim(role));
  }

  /** Trimming the front of `x + y` trims `x`, and reaches into `y` only when
      `x` was all blanks. */
  lemma {:induction false} TrimStartAppend(x: string, y: string)
    ensures TrimStart(x + y) == if TrimStart(x) == "" then TrimStart(y) else TrimStart(x) + y
    decreases |x|
  {
    if |x| == 0 {
      assert x + y == y;
    } else {
      assert (x + y)[0] == x[0] && (x + y)[1..] == x[1..] + y;
      if IsTrimmed(x[0]) {
        TrimStartAppend(x[1..], y);
      }
    }
  }

  /** Upper-casing does not move the trim boundaries. */
  lemma {:induction false} UpperTrimCommute(s: string)
    ensures Trim(ToUpper(s)) == ToUpper(Trim(s))
  {
    UpperTrimStart(s);
    UpperTrimEnd(TrimStart(s));
  }

  lemma {:induction false} UpperTrimStart(s: string)
    ensures TrimStart(ToUpper(s)) == ToUpper(TrimStart(s))
    decreases |s|
  {
    if |s| > 0 {
      UpperTrimStart(s[1..]);
      assert ToUpper(s)[1..] == ToUpper(s[1..]);
    }
  }

  lemma {:induction false} UpperTrimEnd(s: string)
    ensures TrimEnd(ToUpper(s)) == ToUpper(TrimEnd(s))
    decreases |s|
  {
    if |s| > 0 {
      UpperTrimEnd(s[..|s| - 1]);
      assert ToUpper(s)[..|s| - 1] == ToUpper(s[..|s| - 1]);
    }
  }

  /** A value of the `UserRole` enum, named by its constant. The enum's
      members and its `fromString` are not part of this model. */
  datatype UserRole = UserRole(constant: string)

  /** The entity's scalar fields; `None` is Java's `null`. */
  class User {
    var id: Option<int>
    var name: Option<string>
    var email: Option<string>
    var role: Option<UserRole>
    var password: Option<string>

    /** The no-argument constructor JPA uses: every field null. */
    constructor ()
      ensures id == None && name == None && email == None && role == None && password == None
    {
      id, name, email, role, password := None, None, None, None, None;
    }

    /** `User(email, password)`: only the credentials are set. */
    constructor WithCredentials(email: Option<string>, password: Option<string>)
      ensures this.email == email && this.password == password
      ensures id == None && name == None && role == None
    {
      id, name, role := None, None, None;
      this.email := email;
      this.password := password;
    }

    /** `User(name, email, role, password)`: the four values stored as given. */
    constructor WithProfile(name: Option<string>, email: Option<string>, role: Option<UserRole>, password: Option<string>)
      ensures this.name == name && this.email == email && this.role == role && this.password == password
      ensures id == None
    {
      id := None;
      this.name, this.email, this.role, this.password := name, email, role, password;
    }

    method SetId(id: Option<int>)
      modifies this
      ensures this.id == id
      ensures name == old(name) && email == old(email) && role == old(role) && password == old(password)
    {
      this.id := id;
    }

    method SetName(name: Option<string>)
      modifies this
      ensures this.name == name
      ensures id == old(id) && email == old(email) && role == old(role) && password == old(password)
    {
      this.name := name;
    }

    method SetEmail(email: Option<string>)
      modifies this
      ensures this.email == email
      ensures id == old(id) && name == old(name) && role == old(role) && password == old(password)
    {
      this.email := email;
    }

    /** `setRole`: the role is resolved from the trimmed, upper-cased name;
        `fromString` stands for `UserRole.fromString`. */
    method SetRole(role: string, fromString: string -> UserRole)
      modifies this
      ensures this.role == Some(fromString(NormalizeRole(role)))
      ensures id == old(id) && name == old(name) && email == old(email) && password == old(password)
    {
      this.role := Some(fromString(NormalizeRole(role)));
    }

    method SetPassword(password: Option<string>)
      modifies this
      ensures this.password == password
      ensures id == old(id) && name == old(name) && email == old(email) && role == old(role)
    {
      this.password := password;
    }
  }
}
