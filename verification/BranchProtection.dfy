/**
 Protected-branch patterns: a compiler from globs to regular-expression text,
 the meaning of the text it emits, and the glob meaning it must preserve. Text
 is a sequence of code points.
 */
module BranchProtection {
  import opened Wrappers

  const MAX_PATTERN_LENGTH := 240

  datatype PatternError = InvalidPattern(pattern: string)

  // ---------------------------------------------------------------- accepted patterns

  predicate Contains(s: string, part: string) {
    exists i :: 0 <= i <= |s| && part <= s[i..]
  }

  predicate IsControl(c: char) {
    c as int < 32 || c as int == 127
  }

  predicate Accepted(pattern: string) {
    && 1 <= |pattern| <= MAX_PATTERN_LENGTH
    && pattern[0] != '-'
    && (forall c :: c in pattern ==> !IsControl(c) && c !in {'\\', ':', '[', ']', '{', '}'})
    && !Contains(pattern, "..") && !Contains(pattern, "***")
  }

  ghost predicate TwoDotsAt(s: string, i: int) {
    0 <= i < |s| - 1 && s[i] == '.' && s[i + 1] == '.'
  }

  ghost predicate ThreeStarsAt(s: string, i: int) {
    0 <= i < |s| - 2 && s[i] == '*' && s[i + 1] == '*' && s[i + 2] == '*'
  }

  lemma ContainsTwoDots(s: string)
    ensures Contains(s, "..") <==> exists i :: TwoDotsAt(s, i)
  {
    if i :| 0 <= i <= |s| && ".." <= s[i..] {
      assert s[i..][0] == '.' && s[i..][1] == '.';
      assert TwoDotsAt(s, i);
    }
    if i :| TwoDotsAt(s, i) {
      assert ".." <= s[i..];
    }
  }

  lemma ContainsThreeStars(s: string)
    ensures Contains(s, "***") <==> exists i :: ThreeStarsAt(s, i)
  {
    if i :| 0 <= i <= |s| && "***" <= s[i..] {
      assert s[i..][0] == '*' && s[i..][1] == '*' && s[i..][2] == '*';
      assert ThreeStarsAt(s, i);
    }
    if i :| ThreeStarsAt(s, i) {
      assert "***" <= s[i..];
    }
  }

  /** Printable, and none of the marks that would mean something else in a pattern. */
  ghost predicate MayBeInPattern(c: char) {
    && c as int >= 0x20 && c as int != 0x7F
    && c != '\\' && c != ':' && c != '[' && c != ']' && c != '{' && c != '}'
  }

  /** A pattern of up to 240 characters is accepted for what it may not hold, or not start with. */
  lemma AcceptedIff(pattern: string)
    ensures Accepted(pattern) <==>
      && pattern != "" && |pattern| < 241 && pattern[0] != '-'
      && (forall i :: 0 <= i < |pattern| ==> MayBeInPattern(pattern[i]))
      && (forall i :: !TwoDotsAt(pattern, i)) && forall i :: !ThreeStarsAt(pattern, i)
  {
    ContainsTwoDots(pattern);
    ContainsThreeStars(pattern);
    assert forall i :: 0 <= i < |pattern| ==> pattern[i] in pattern;
    if forall i :: 0 <= i < |pattern| ==> MayBeInPattern(pattern[i]) {
      assert forall c :: c in pattern ==> MayBeInPattern(c);
    }
  }

  // ---------------------------------------------------------------- compilation

  const SYNTAX_CHARACTERS := {'\\', '^', '$', '.', '*', '+', '?', '(', ')', '[', ']', '{', '}', '|'}

  function Escape(c: char): string {
    if c in SYNTAX_CHARACTERS then ['\\', c] else [c]
  }

  /** The expression for the pattern from some index on, without its anchors. */
  function Body(pattern: string): string {
    if pattern == "" then ""
    else if pattern[0] == '*' then
      if |pattern| > 1 && pattern[1] == '*' then ".*" + Body(pattern[2..]) else "[^/]*" + Body(pattern[1..])
    else if pattern[0] == '?' then "[^/]" + Body(pattern[1..])
    else Escape(pattern[0]) + Body(pattern[1..])
  }

  function Compiled(pattern: string): string {
    "^" + Body(pattern) + "$"
  }

  lemma BodyStep(pattern: string, i: nat)
    requires i < |pattern|
    ensures var rest := pattern[i..];
      Body(rest) ==
        if pattern[i] == '*' && i + 1 < |pattern| && pattern[i + 1] == '*' then ".*" + Body(pattern[i + 2..])
        else (if pattern[i] == '*' then "[^/]*" else if pattern[i] == '?' then "[^/]" else Escape(pattern[i]))
             + Body(pattern[i + 1..])
  {
    assert pattern[i..][1..] == pattern[i + 1..];
    assert i + 1 < |pattern| ==> pattern[i..][2..] == pattern[i + 2..];
  }

  lemma Emit(expression: string, part: string, rest: string)
    ensures expression + (part + rest) == (expression + part) + rest
  {
  }

  method CompilePattern(pattern: string) returns (r: Result<string, PatternError>)
    ensures r == if Accepted(pattern) then Ok(Compiled(pattern)) else Err(InvalidPattern(pattern))
  {
    if !Accepted(pattern) {
      return Err(InvalidPattern(pattern));
    }
    var expression := "^";
    var index := 0;
    while index < |pattern|
      invariant 0 <= index <= |pattern|
      invariant expression + Body(pattern[index..]) == "^" + Body(pattern)
    {
      BodyStep(pattern, index);
      var character := pattern[index];
      if character == '*' {
        if index + 1 < |pattern| && pattern[index + 1] == '*' {
          Emit(expression, ".*", Body(pattern[index + 2..]));
          expression := expression + ".*";
          index := index + 1;
        } else {
          Emit(expression, "[^/]*", Body(pattern[index + 1..]));
          expression := expression + "[^/]*";
        }
      } else if character == '?' {
        Emit(expression, "[^/]", Body(pattern[index + 1..]));
        expression := expression + "[^/]";
      } else {
        Emit(expression, Escape(character), Body(pattern[index + 1..]));
        expression := expression + Escape(character);
      }
      index := index + 1;
    }
    assert pattern[index..] == "" && expression + "" == expression;
    return Ok(expression + "$");
  }

  // ---------------------------------------------------------------- the meaning of an expression

  datatype Atom = Literal(c: char) | NotSlash | NotSlashStar | DotStar

  predicate IsLineTerminator(c: char) {
    c in {'\n', '\r', '\U{2028}', '\U{2029}'}
  }

  /** The characters one repetition of the atom stands for. */
  predicate Stands(atom: Atom, c: char) {
    match atom
    case Literal(d) => c == d
    case NotSlash => c != '/'
    case NotSlashStar => c != '/'
    case DotStar => !IsLineTerminator(c)
  }

  predicate IsQuantifier(text: string) {
    text != "" && text[0] in {'*', '+', '?', '{'}
  }

  /**
   Read unanchored expression text: `.*`, `[^/]` with or without `*`, escaped
   syntax characters and plain characters. Any other expression is not read.
   */
  function Read(text: string): Option<seq<Atom>> {
    if text == "" then Some([])
    else if ".*" <= text then Prepend(DotStar, Read(text[2..]))
    else if "[^/]*" <= text then Prepend(NotSlashStar, Read(text[5..]))
    else if "[^/]" <= text then Prepend(NotSlash, Read(text[4..]))
    else if text[0] == '\\' then
      if |text| > 1 && text[1] in SYNTAX_CHARACTERS && !IsQuantifier(text[2..])
      then Prepend(Literal(text[1]), Read(text[2..])) else None
    else if text[0] !in SYNTAX_CHARACTERS && !IsQuantifier(text[1..])
    then Prepend(Literal(text[0]), Read(text[1..])) else None
  }

  function Prepend(atom: Atom, rest: Option<seq<Atom>>): Option<seq<Atom>> {
    if rest.Some? then Some([atom] + rest.value) else None
  }

  /** An anchored expression: `^` and `$` around what is read. */
  function ReadAnchored(expression: string): Option<seq<Atom>> {
    if |expression| >= 2 && expression[0] == '^' && expression[|expression| - 1] == '$'
    then Read(expression[1..|expression| - 1]) else None
  }

  function Printed(atom: Atom): string {
    match atom
    case Literal(c) => Escape(c)
    case NotSlash => "[^/]"
    case NotSlashStar => "[^/]*"
    case DotStar => ".*"
  }

  function PrintedAll(atoms: seq<Atom>): string {
    if atoms == [] then "" else Printed(atoms[0]) + PrintedAll(atoms[1..])
  }

  lemma PrefixIsPrinted(text: string, part: string)
    requires part <= text
    ensures text == part + text[|part|..]
  {
  }

  /** Nothing is read but printed atoms: what is read prints as the text it was read from. */
  lemma {:induction false} ReadPrintsBack(text: string)
    requires Read(text).Some?
    ensures PrintedAll(Read(text).value) == text
  {
    if text != "" {
      var part := if ".*" <= text then ".*" else if "[^/]*" <= text then "[^/]*" else if "[^/]" <= text then "[^/]"
                  else if text[0] == '\\' then text[..2] else text[..1];
      PrefixIsPrinted(text, part);
      ReadPrintsBack(text[|part|..]);
      assert Read(text).value[1..] == Read(text[|part|..]).value;
    }
  }

  predicate AllStand(atom: Atom, s: string) {
    forall c :: c in s ==> Stands(atom, c)
  }

  /** The atoms match all of s, each starred one some stretch of it. */
  predicate Matches(atoms: seq<Atom>, s: string)
    decreases |atoms|
  {
    if atoms == [] then s == ""
    else
      match atoms[0]
      case Literal(_) => s != "" && Stands(atoms[0], s[0]) && Matches(atoms[1..], s[1..])
      case NotSlash => s != "" && Stands(atoms[0], s[0]) && Matches(atoms[1..], s[1..])
      case _ => exists k :: 0 <= k <= |s| && AllStand(atoms[0], s[..k]) && Matches(atoms[1..], s[k..])
  }

  predicate Test(expression: string, branch: string) {
    var atoms := ReadAnchored(expression);
    atoms.Some? && Matches(atoms.value, branch)
  }

  // ---------------------------------------------------------------- the meaning of a glob

  /** `**` stands for anything, `*` for anything without a slash, `?` for one character but a slash. */
  predicate Glob(pattern: string, s: string)
    decreases |pattern|, |s|
  {
    if pattern == "" then s == ""
    else if pattern[0] == '*' then
      if |pattern| > 1 && pattern[1] == '*'
      then Glob(pattern[2..], s) || (s != "" && Glob(pattern, s[1..]))
      else Glob(pattern[1..], s) || (s != "" && s[0] != '/' && Glob(pattern, s[1..]))
    else if pattern[0] == '?' then s != "" && s[0] != '/' && Glob(pattern[1..], s[1..])
    else s != "" && s[0] == pattern[0] && Glob(pattern[1..], s[1..])
  }

  // ---------------------------------------------------------------- the compiler emits what its tokens mean

  /** The atoms of a pattern, read straight off it. */
  function Atoms(pattern: string): seq<Atom> {
    if pattern == "" then []
    else if pattern[0] == '*' then
      if |pattern| > 1 && pattern[1] == '*' then [DotStar] + Atoms(pattern[2..])
      else [NotSlashStar] + Atoms(pattern[1..])
    else if pattern[0] == '?' then [NotSlash] + Atoms(pattern[1..])
    else [Literal(pattern[0])] + Atoms(pattern[1..])
  }

  predicate Plain(pattern: string) {
    forall c :: c in pattern ==> c !in {'\\', '[', ']', '{', '}'}
  }

  lemma FirstCharacter(text: string)
    requires text != ""
    ensures ".*" <= text ==> text[0] == '.'
    ensures "[^/]" <= text ==> text[0] == '['
    ensures "[^/]*" <= text ==> |text| > 4 && text[0] == '[' && text[4] == '*'
  {
    if "[^/]*" <= text {
      assert text[4] == "[^/]*"[4];
    }
  }

  lemma ReadLiteral(c: char, rest: string)
    requires c !in {'*', '?'} && !IsQuantifier(rest)
    ensures Read(Escape(c) + rest) == Prepend(Literal(c), Read(rest))
  {
    var text := Escape(c) + rest;
    FirstCharacter(text);
    if c in SYNTAX_CHARACTERS {
      assert text[2..] == rest;
    } else {
      assert text[1..] == rest;
    }
  }

  lemma ReadOne(rest: string)
    requires !IsQuantifier(rest)
    ensures Read("[^/]" + rest) == Prepend(NotSlash, Read(rest))
  {
    var text := "[^/]" + rest;
    FirstCharacter(text);
    assert text[4..] == rest;
    assert forall i :: 0 <= i < |rest| ==> rest[i] == text[4 + i];
  }

  lemma ReadStars(rest: string)
    ensures Read(".*" + rest) == Prepend(DotStar, Read(rest))
    ensures Read("[^/]*" + rest) == Prepend(NotSlashStar, Read(rest))
  {
    FirstCharacter("[^/]*" + rest);
    assert (".*" + rest)[2..] == rest && ("[^/]*" + rest)[5..] == rest;
  }

  /** Emitted text reads back as the pattern's own atoms. */
  lemma {:induction false} BodyReadsBack(pattern: string)
    requires Plain(pattern)
    ensures Read(Body(pattern)) == Some(Atoms(pattern))
  {
    if pattern != "" {
      var doubled := pattern[0] == '*' && |pattern| > 1 && pattern[1] == '*';
      var rest := pattern[if doubled then 2 else 1..];
      assert forall c :: c in rest ==> c in pattern;
      BodyReadsBack(rest);
      ReadStars(Body(rest));
      if pattern[0] == '?' {
        ReadOne(Body(rest));
      } else if pattern[0] != '*' {
        ReadLiteral(pattern[0], Body(rest));
      }
    }
  }

  lemma CompiledReadsBack(pattern: string)
    requires Accepted(pattern)
    ensures ReadAnchored(Compiled(pattern)) == Some(Atoms(pattern))
  {
    BodyReadsBack(pattern);
    assert Compiled(pattern)[1..|Compiled(pattern)| - 1] == Body(pattern);
  }

  // ---------------------------------------------------------------- the compiler preserves meaning

  predicate SingleLine(s: string) {
    forall c :: c in s ==> !IsLineTerminator(c)
  }

  predicate IsStar(atom: Atom) {
    atom.NotSlashStar? || atom.DotStar?
  }

  lemma StarTakes(atom: Atom, rest: seq<Atom>, s: string, k: nat)
    requires k <= |s| && AllStand(atom, s[..k]) && Matches(rest, s[k..])
    requires IsStar(atom)
    ensures Matches([atom] + rest, s)
  {
    assert ([atom] + rest)[1..] == rest;
  }

  lemma StarSplits(atom: Atom, rest: seq<Atom>, s: string) returns (k: nat)
    requires IsStar(atom) && Matches([atom] + rest, s)
    ensures k <= |s| && AllStand(atom, s[..k]) && Matches(rest, s[k..])
  {
    var atoms := [atom] + rest;
    assert atoms[1..] == rest;
    k :| 0 <= k <= |s| && AllStand(atom, s[..k]) && Matches(atoms[1..], s[k..]);
  }

  lemma StarForward(atom: Atom, rest: seq<Atom>, s: string)
    requires IsStar(atom) && Matches([atom] + rest, s)
    ensures Matches(rest, s) || (s != "" && Stands(atom, s[0]) && Matches([atom] + rest, s[1..]))
  {
    var k := StarSplits(atom, rest, s);
    if k == 0 {
      assert s[0..] == s;
    } else {
      var tail := s[1..];
      assert tail[k - 1..] == s[k..];
      assert tail[..k - 1] == s[..k][1..];
      assert s[..k][0] in s[..k];
      assert forall c :: c in s[..k][1..] ==> c in s[..k];
      StarTakes(atom, rest, tail, k - 1);
    }
  }

  /** A starred atom stops here, or takes one more character. */
  lemma StarStep(atom: Atom, rest: seq<Atom>, s: string)
    requires IsStar(atom)
    ensures Matches([atom] + rest, s) <==>
            Matches(rest, s) || (s != "" && Stands(atom, s[0]) && Matches([atom] + rest, s[1..]))
  {
    if Matches([atom] + rest, s) {
      StarForward(atom, rest, s);
    } else if Matches(rest, s) {
      assert s[0..] == s;
      StarTakes(atom, rest, s, 0);
    } else if s != "" && Stands(atom, s[0]) && Matches([atom] + rest, s[1..]) {
    }
  }

  /** A match is always a match of the glob, and on one line the two are the same. */
  lemma {:induction false} MatchesIffGlob(pattern: string, s: string)
    ensures Matches(Atoms(pattern), s) ==> Glob(pattern, s)
    ensures SingleLine(s) ==> (Glob(pattern, s) ==> Matches(Atoms(pattern), s))
    decreases |pattern|, |s|
  {
    if pattern != "" && pattern[0] == '*' {
      var doubled := |pattern| > 1 && pattern[1] == '*';
      var rest := pattern[if doubled then 2 else 1..];
      var atom := if doubled then DotStar else NotSlashStar;
      StarStep(atom, Atoms(rest), s);
      MatchesIffGlob(rest, s);
      if s != "" {
        MatchesIffGlob(pattern, s[1..]);
      }
    } else if pattern != "" && s != "" {
      MatchesIffGlob(pattern[1..], s[1..]);
      assert Atoms(pattern)[1..] == Atoms(pattern[1..]);
    }
  }

  /** The compiled expression of an accepted pattern tests exactly for the glob, on any branch of one line. */
  lemma CompilationPreservesMeaning(pattern: string, branch: string)
    requires Accepted(pattern)
    ensures Test(Compiled(pattern), branch) ==> Glob(pattern, branch)
    ensures SingleLine(branch) ==> (Test(Compiled(pattern), branch) <==> Glob(pattern, branch))
  {
    CompiledReadsBack(pattern);
    MatchesIffGlob(pattern, branch);
  }

  lemma {:induction false} AnythingMatchesDoubleStar(s: string)
    ensures Glob("**", s)
  {
    if s != "" {
      AnythingMatchesDoubleStar(s[1..]);
    }
  }

  /**
   Compilation agrees with the glob for every accepted pattern exactly on the
   branches without a line terminator: `**` is emitted as `.*`, which stops at one.
   */
  lemma AgreementIffSingleLine(branch: string)
    ensures (forall pattern :: Accepted(pattern) ==> (Test(Compiled(pattern), branch) <==> Glob(pattern, branch)))
            <==> SingleLine(branch)
  {
    if SingleLine(branch) {
      forall pattern | Accepted(pattern) ensures Test(Compiled(pattern), branch) <==> Glob(pattern, branch) {
        CompilationPreservesMeaning(pattern, branch);
      }
    } else {
      CompiledReadsBack("**");
      AnythingMatchesDoubleStar(branch);
      assert !Matches([DotStar], branch) by {
        forall k | 0 <= k <= |branch| && Matches([], branch[k..]) ensures !AllStand(DotStar, branch[..k]) {
          assert branch[..k] == branch;
        }
      }
      assert !(Test(Compiled("**"), branch) <==> Glob("**", branch));
    }
  }

  // ---------------------------------------------------------------- wildcard-free and widened patterns

  predicate WildcardFree(pattern: string) {
    forall c :: c in pattern ==> c !in {'*', '?'}
  }

  lemma {:induction false} LiteralsMatchThemselves(pattern: string, s: string)
    requires WildcardFree(pattern)
    ensures Matches(Atoms(pattern), s) <==> s == pattern
    decreases |pattern|
  {
    if pattern != "" {
      var atoms := Atoms(pattern);
      assert pattern[0] in pattern && forall c :: c in pattern[1..] ==> c in pattern;
      assert atoms == [Literal(pattern[0])] + Atoms(pattern[1..]) && atoms[1..] == Atoms(pattern[1..]);
      if s != "" {
        LiteralsMatchThemselves(pattern[1..], s[1..]);
        assert s == [s[0]] + s[1..] && pattern == [pattern[0]] + pattern[1..];
      }
    }
  }

  /** A pattern without wildcards protects exactly the branch of that name. */
  lemma WildcardFreeProtectsItself(pattern: string, branch: string)
    requires Accepted(pattern) && WildcardFree(pattern)
    ensures Test(Compiled(pattern), branch) <==> branch == pattern
  {
    CompiledReadsBack(pattern);
    LiteralsMatchThemselves(pattern, branch);
  }

  /** How many characters the first atom of a pattern is read from. */
  function Taken(pattern: string): nat
    requires pattern != ""
  {
    if pattern[0] == '*' && |pattern| > 1 && pattern[1] == '*' then 2 else 1
  }

  function FirstAtom(pattern: string): Atom
    requires pattern != ""
  {
    if pattern[0] == '*' then if Taken(pattern) == 2 then DotStar else NotSlashStar
    else if pattern[0] == '?' then NotSlash else Literal(pattern[0])
  }

  lemma SameFirst(a: string, b: string)
    requires a != "" && (b == "" || a[|a| - 1] != '*' || b[0] != '*')
    ensures FirstAtom(a + b) == FirstAtom(a) && Taken(a + b) == Taken(a)
    ensures (a + b)[Taken(a)..] == a[Taken(a)..] + b
  {
    assert |a| > 1 ==> (a + b)[1] == a[1];
  }

  lemma {:induction false} AtomsConcat(a: string, b: string)
    requires a == "" || b == "" || a[|a| - 1] != '*' || b[0] != '*'
    ensures Atoms(a + b) == Atoms(a) + Atoms(b)
    decreases |a|
  {
    if a == "" {
      assert a + b == b;
    } else {
      AtomsConcat(a[Taken(a)..], b);
      SameFirst(a, b);
    }
  }

  ghost predicate Included(x: seq<Atom>, y: seq<Atom>) {
    forall s :: SingleLine(s) && Matches(x, s) ==> Matches(y, s)
  }

  lemma {:induction false} InclusionExtends(prefix: seq<Atom>, x: seq<Atom>, y: seq<Atom>)
    requires Included(x, y)
    ensures Included(prefix + x, prefix + y)
    decreases |prefix|
  {
    if prefix == [] {
      assert prefix + x == x && prefix + y == y;
    } else {
      InclusionExtends(prefix[1..], x, y);
      assert (prefix + x)[1..] == prefix[1..] + x && (prefix + y)[1..] == prefix[1..] + y;
      forall s | SingleLine(s) && Matches(prefix + x, s) ensures Matches(prefix + y, s) {
        if IsStar(prefix[0]) {
          var k :| 0 <= k <= |s| && AllStand(prefix[0], s[..k]) && Matches((prefix + x)[1..], s[k..]);
          assert Matches((prefix + y)[1..], s[k..]);
        } else {
        }
      }
    }
  }

  lemma SingleStarAtoms(before: string, after: string)
    requires before == "" || before[|before| - 1] != '*'
    requires after == "" || after[0] != '*'
    ensures Atoms(before + "*" + after) == Atoms(before) + ([NotSlashStar] + Atoms(after))
    ensures Atoms(before + "**" + after) == Atoms(before) + ([DotStar] + Atoms(after))
  {
    assert before + "*" + after == before + ("*" + after) && before + "**" + after == before + ("**" + after);
    AtomsConcat(before, "*" + after);
    AtomsConcat(before, "**" + after);
    assert ("*" + after)[1..] == after && ("**" + after)[2..] == after;
    assert after != "" ==> ("*" + after)[1] == after[0];
  }

  lemma TripleStar(before: string, after: string)
    requires (before != "" && before[|before| - 1] == '*') || (after != "" && after[0] == '*')
    ensures Contains(before + "**" + after, "***")
  {
    var s := before + "**" + after;
    var i := if before != "" && before[|before| - 1] == '*' then |before| - 1 else |before|;
    assert s[i..][..3] == "***";
    assert "***" <= s[i..];
  }

  /** The star that is widened stands alone, since an accepted pattern never has three together. */
  lemma StarStandsAlone(before: string, after: string)
    requires Accepted(before + "**" + after)
    ensures before == "" || before[|before| - 1] != '*'
    ensures after == "" || after[0] != '*'
  {
    if (before != "" && before[|before| - 1] == '*') || (after != "" && after[0] == '*') {
      TripleStar(before, after);
    }
  }

  /** Widening one `*` of an accepted pattern to `**` only protects more branches. */
  lemma WideningProtectsMore(before: string, after: string, branch: string)
    requires Accepted(before + "*" + after) && Accepted(before + "**" + after) && SingleLine(branch)
    requires Test(Compiled(before + "*" + after), branch)
    ensures Test(Compiled(before + "**" + after), branch)
  {
    StarStandsAlone(before, after);
    CompiledReadsBack(before + "*" + after);
    CompiledReadsBack(before + "**" + after);
    SingleStarAtoms(before, after);
    InclusionExtends(Atoms(before), [NotSlashStar] + Atoms(after), [DotStar] + Atoms(after));
  }

  // ---------------------------------------------------------------- assessment

  datatype Reason = IsDefaultBranch | MatchesPattern(pattern: string)

  datatype Assessment = Assessment(branch: string, isProtected: bool, reasons: seq<Reason>)

  /** The patterns without repetitions, each where it first occurs. */
  function Unique(patterns: seq<string>): seq<string> {
    if patterns == [] then []
    else
      var init, last := Unique(patterns[..|patterns| - 1]), patterns[|patterns| - 1];
      if last in init then init else init + [last]
  }

  /** One reason for each pattern whose expression passes the test. */
  function MatchReasons(patterns: seq<string>, test: string -> bool): seq<Reason> {
    if patterns == [] then []
    else
      var last := patterns[|patterns| - 1];
      MatchReasons(patterns[..|patterns| - 1], test)
      + (if test(Compiled(last)) then [MatchesPattern(last)] else [])
  }

  function TestOn(branch: string): string -> bool {
    (expression: string) => Test(expression, branch)
  }

  lemma {:induction false} UniqueMembers(patterns: seq<string>)
    ensures forall pattern :: pattern in Unique(patterns) <==> pattern in patterns
  {
    if patterns != [] {
      UniqueMembers(patterns[..|patterns| - 1]);
      assert patterns == patterns[..|patterns| - 1] + [patterns[|patterns| - 1]];
    }
  }

  lemma {:induction false} ReasonsFromMatches(patterns: seq<string>, test: string -> bool)
    ensures MatchReasons(patterns, test) == [] <==> forall pattern :: pattern in patterns ==> !test(Compiled(pattern))
  {
    if patterns != [] {
      ReasonsFromMatches(patterns[..|patterns| - 1], test);
      assert patterns == patterns[..|patterns| - 1] + [patterns[|patterns| - 1]];
    }
  }

  /** Compile and test the patterns in order; the first one that is not accepted ends it. */
  method CollectReasons(patterns: seq<string>, test: string -> bool) returns (r: Result<seq<Reason>, PatternError>)
    ensures r.Ok? <==> forall pattern :: pattern in patterns ==> Accepted(pattern)
    ensures r.Ok? ==> r.value == MatchReasons(patterns, test)
    ensures r.Err? ==> r.error.pattern in patterns && !Accepted(r.error.pattern)
  {
    var reasons: seq<Reason> := [];
    for i := 0 to |patterns|
      invariant reasons == MatchReasons(patterns[..i], test)
      invariant forall k :: 0 <= k < i ==> Accepted(patterns[k])
    {
      assert patterns[..i + 1][..i] == patterns[..i];
      assert patterns[i] in patterns;
      var expression :- CompilePattern(patterns[i]);
      if test(expression) {
        reasons := reasons + [MatchesPattern(patterns[i])];
      }
    }
    assert patterns[..|patterns|] == patterns;
    return Ok(reasons);
  }

  method UniquePatterns(patterns: seq<string>) returns (unique: seq<string>)
    ensures unique == Unique(patterns)
  {
    unique := [];
    for i := 0 to |patterns|
      invariant unique == Unique(patterns[..i])
    {
      assert patterns[..i + 1][..i] == patterns[..i];
      if patterns[i] !in unique {
        unique := unique + [patterns[i]];
      }
    }
    assert patterns[..|patterns|] == patterns;
  }

  /**
   A branch is protected iff it is the default branch or matches one of the patterns; a
   bad pattern fails the assessment.
   */
  method AssessBranchProtection(defaultBranch: Option<string>, repositoryPatterns: seq<string>,
                                configuredPatterns: seq<string>, branch: string)
    returns (r: Result<Assessment, PatternError>)
    ensures r.Ok? <==> forall pattern :: pattern in repositoryPatterns + configuredPatterns ==> Accepted(pattern)
    ensures r.Ok? ==>
              && (r.value.isProtected <==>
                    || defaultBranch == Some(branch)
                    || exists pattern :: pattern in repositoryPatterns + configuredPatterns
                                         && TestOn(branch)(Compiled(pattern)))
              && r.value.reasons == (if defaultBranch == Some(branch) then [IsDefaultBranch] else [])
                                    + MatchReasons(Unique(repositoryPatterns + configuredPatterns), TestOn(branch))
    ensures r.Err? ==> r.error.pattern in repositoryPatterns + configuredPatterns && !Accepted(r.error.pattern)
  {
    var reasons: seq<Reason> := if defaultBranch == Some(branch) then [IsDefaultBranch] else [];
    var patterns := UniquePatterns(repositoryPatterns + configuredPatterns);
    UniqueMembers(repositoryPatterns + configuredPatterns);
    var matches :- CollectReasons(patterns, TestOn(branch));
    reasons := reasons + matches;
    ReasonsFromMatches(patterns, TestOn(branch));
    return Ok(Assessment(branch, reasons != [], reasons));
  }
}
