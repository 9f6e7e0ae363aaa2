/**
 Turning a workflow id into a Kubernetes name. The letters-or-digits rule for
 the first character is that of section 2.1 of RFC 1123.
 */
module Naming {

  // ------------------------------------------------------ regular expressions

  /** The regular expressions used here, and what it means to match a whole string. */
  datatype Regex = Class(chars: set<char>) | Then(first: Regex, second: Regex) | Optional(of: Regex) | Star(of: Regex)

  ghost predicate Matches(r: Regex, s: string)
    decreases r, |s|
  {
    match r
    case Class(cs) => |s| == 1 && s[0] in cs
    case Then(a, b) => exists i :: 0 <= i <= |s| && Matches(a, s[..i]) && Matches(b, s[i..])
    case Optional(a) => s == "" || Matches(a, s)
    case Star(a) => s == "" || exists i :: 0 < i <= |s| && Matches(a, s[..i]) && Matches(r, s[i..])
  }

  const ALPHANUMERIC: set<char> := set c: char | 'a' <= c <= 'z' || '0' <= c <= '9'

  predicate Alphanumeric(c: char) { 'a' <= c <= 'z' || '0' <= c <= '9' }

  predicate Allowed(c: char) { c == '-' || Alphanumeric(c) }

  /** `-?[a-z0-9]` */
  const STEP := Then(Optional(Class({'-'})), Class(ALPHANUMERIC))

  /** `^[a-z0-9](-?[a-z0-9])*$` */
  const NAMING_REGEX := Then(Class(ALPHANUMERIC), Star(STEP))

  /** What `(-?[a-z0-9])*` accepts. */
  predicate IsTail(s: string) {
    && (forall i :: 0 <= i < |s| ==> Allowed(s[i]))
    && (s != "" ==> s[|s| - 1] != '-')
    && forall i, j :: 0 <= i < |s| && j == i + 1 && j < |s| ==> s[i] != '-' || s[j] != '-'
  }

  /** The names the pattern is meant to accept. */
  predicate IsName(s: string) {
    s != "" && s[0] != '-' && IsTail(s)
  }

  lemma StepMatches(s: string)
    ensures Matches(STEP, s) <==> (|s| == 1 && Alphanumeric(s[0])) || (|s| == 2 && s[0] == '-' && Alphanumeric(s[1]))
  {
    if |s| == 1 && Alphanumeric(s[0]) {
      assert s[..0] == "" && s[0..] == s;
      assert Matches(Optional(Class({'-'})), s[..0]) && Matches(Class(ALPHANUMERIC), s[0..]);
    }
    if |s| == 2 && s[0] == '-' && Alphanumeric(s[1]) {
      assert Matches(Optional(Class({'-'})), s[..1]) && Matches(Class(ALPHANUMERIC), s[1..]);
    }
    if Matches(STEP, s) {
      var i :| 0 <= i <= |s| && Matches(Optional(Class({'-'})), s[..i]) && Matches(Class(ALPHANUMERIC), s[i..]);
      assert i == 0 || Matches(Class({'-'}), s[..i]);
      assert |s[i..]| == 1;
    }
  }

  lemma {:induction false} StarMatches(s: string)
    ensures Matches(Star(STEP), s) <==> IsTail(s)
    decreases |s|
  {
    if Matches(Star(STEP), s) && s != "" {
      var i :| 0 < i <= |s| && Matches(STEP, s[..i]) && Matches(Star(STEP), s[i..]);
      StepMatches(s[..i]);
      StarMatches(s[i..]);
      TailGrows(s, i);
    }
    if IsTail(s) && s != "" {
      var i := if s[0] == '-' then 2 else 1;
      StepMatches(s[..i]);
      TailShrinks(s, i);
      StarMatches(s[i..]);
      assert Matches(STEP, s[..i]) && Matches(Star(STEP), s[i..]);
    }
  }

  lemma TailGrows(s: string, i: int)
    requires 0 < i <= |s| && Matches(STEP, s[..i]) && IsTail(s[i..])
    ensures IsTail(s)
  {
    StepMatches(s[..i]);
    assert forall k :: 0 <= k < i ==> s[k] == s[..i][k];
    assert forall k :: i <= k < |s| ==> s[k] == s[i..][k - i];
    forall k, j | 0 <= k < |s| && j == k + 1 && j < |s| ensures s[k] != '-' || s[j] != '-' {
      if k >= i { assert s[i..][k - i] != '-' || s[i..][j - i] != '-'; }
    }
  }

  lemma TailShrinks(s: string, i: int)
    requires IsTail(s) && s != "" && i == if s[0] == '-' then 2 else 1
    ensures i <= |s| && IsTail(s[i..])
  {
    var t := s[i..];
    assert forall k :: 0 <= k < |t| ==> t[k] == s[k + i];
  }

  /** The pattern accepts the intended names: letters, digits and single dashes, the dashes inside. */
  lemma NamingRegexAccepts(s: string)
    ensures Matches(NAMING_REGEX, s) <==> IsName(s)
    ensures Matches(NAMING_REGEX, s) <==>
            && s != "" && s[0] != '-' && s[|s| - 1] != '-'
            && (forall i :: 0 <= i < |s| ==> s[i] == '-' || 'a' <= s[i] <= 'z' || '0' <= s[i] <= '9')
            && forall i, j :: 0 <= i < |s| && j == i + 1 && j < |s| ==> s[i] != '-' || s[j] != '-'
  {
    if Matches(NAMING_REGEX, s) {
      var i :| 0 <= i <= |s| && Matches(Class(ALPHANUMERIC), s[..i]) && Matches(Star(STEP), s[i..]);
      assert i == 1;
      StarMatches(s[1..]);
      StepMatches(s[..1]);
      TailGrows(s, 1);
    }
    if IsName(s) {
      TailShrinks(s, 1);
      StarMatches(s[1..]);
      assert Matches(Class(ALPHANUMERIC), s[..1]) && Matches(Star(STEP), s[1..]);
    }
  }

  // -------------------------------------------------------------- sanitizing

  /** The library's character tables: lower case of a character, and which characters are white space. */
  datatype Tables = Tables(lower: char -> char, space: char -> bool)

  /** All that is assumed of the tables: the allowed characters are lower case and no white space. */
  ghost predicate Sound(u: Tables) {
    forall c :: Allowed(c) ==> u.lower(c) == c && !u.space(c)
  }

  function ToLower(u: Tables, s: string): (r: string)
    ensures |r| == |s| && forall i :: 0 <= i < |s| ==> r[i] == u.lower(s[i])
  {
    seq(|s|, i requires 0 <= i < |s| => u.lower(s[i]))
  }

  /** Where the leading characters to drop end, given that all before `from` are such. */
  function LeadingEnd(drop: char -> bool, s: string, from: nat): (n: nat)
    requires from <= |s| && forall i :: 0 <= i < from ==> drop(s[i])
    ensures n <= |s| && forall i :: 0 <= i < n ==> drop(s[i])
    ensures n < |s| ==> !drop(s[n])
    decreases |s| - from
  {
    if from < |s| && drop(s[from]) then LeadingEnd(drop, s, from + 1) else from
  }

  /** Where the trailing characters to drop start, given that all from `to` on are such. */
  function TrailingStart(drop: char -> bool, s: string, to: nat): (n: nat)
    requires to <= |s| && forall i :: to <= i < |s| ==> drop(s[i])
    ensures n <= to && forall i :: n <= i < |s| ==> drop(s[i])
    ensures n > 0 ==> !drop(s[n - 1])
  {
    if to > 0 && drop(s[to - 1]) then TrailingStart(drop, s, to - 1) else to
  }

  function TrimLeft(drop: char -> bool, s: string): string {
    s[LeadingEnd(drop, s, 0)..]
  }

  function TrimRight(drop: char -> bool, s: string): string {
    s[..TrailingStart(drop, s, |s|)]
  }

  function TrimSpace(u: Tables, s: string): string {
    TrimRight(u.space, TrimLeft(u.space, s))
  }

  function Shown(c: char): char { if Allowed(c) then c else '-' }

  /** Every character outside `[-a-z0-9]` becomes a dash. */
  function DashOut(s: string): (r: string)
    ensures |r| == |s| && forall i :: 0 <= i < |s| ==> r[i] == Shown(s[i])
  {
    seq(|s|, i requires 0 <= i < |s| => Shown(s[i]))
  }

  predicate IsDash(c: char) { c == '-' }

  function DropLeadingDashes(s: string): string {
    TrimLeft(IsDash, s)
  }

  const CHAR_LIMIT := 253

  /** The text before the length limit. */
  function Cleaned(u: Tables, name: string): string {
    DropLeadingDashes(DashOut(TrimSpace(u, ToLower(u, name))))
  }

  /** The text cut at the length limit. */
  function Limited(s: string): (r: string)
    ensures |r| == if |s| > CHAR_LIMIT then CHAR_LIMIT else |s|
    ensures forall i :: 0 <= i < |r| ==> r[i] == s[i]
  {
    if |s| > CHAR_LIMIT then s[..CHAR_LIMIT] else s
  }

  function SanitizeNaming(u: Tables, name: string): string {
    if |name| == 0 || IsName(name) then name
    else Limited(Cleaned(u, name))
  }

  /** Trimming keeps the stretch between the white space at both ends. */
  lemma TrimSpan(u: Tables, s: string) returns (a: nat, b: nat)
    ensures a <= b <= |s| && |TrimSpace(u, s)| == b - a
    ensures forall i :: 0 <= i < b - a ==> TrimSpace(u, s)[i] == s[a + i]
    ensures forall i :: 0 <= i < a || b <= i < |s| ==> u.space(s[i])
    ensures a < b ==> !u.space(s[b - 1])
  {
    var left := TrimLeft(u.space, s);
    a := LeadingEnd(u.space, s, 0);
    b := a + TrailingStart(u.space, left, |left|);
    forall i | b <= i < |s| ensures u.space(s[i]) { assert left[i - a] == s[i]; }
    assert a < b ==> left[b - a - 1] == s[b - 1];
  }

  /** Dropping leading dashes keeps everything from the first other character on. */
  lemma DropSpan(s: string) returns (d: nat)
    ensures d <= |s| && |DropLeadingDashes(s)| == |s| - d
    ensures forall i :: 0 <= i < |s| - d ==> DropLeadingDashes(s)[i] == s[d + i]
    ensures forall i :: 0 <= i < d ==> s[i] == '-'
    ensures d < |s| ==> s[d] != '-'
  {
    d := LeadingEnd(IsDash, s, 0);
  }

  /** What every result looks like. */
  lemma SanitizedShape(u: Tables, name: string)
    ensures
      var r := SanitizeNaming(u, name);
      && (forall i :: 0 <= i < |r| ==> r[i] == '-' || 'a' <= r[i] <= 'z' || '0' <= r[i] <= '9')
      && (r != "" ==> r[0] != '-')
      && (|r| <= 253 || (r == name && Matches(NAMING_REGEX, name)))
  {
    if |name| == 0 || IsName(name) {
      NamingRegexAccepts(name);
    } else {
      var d := DropSpan(DashOut(TrimSpace(u, ToLower(u, name))));
    }
  }

  /** A name that matches the pattern is returned as it is, whatever its length. */
  lemma NamesAreKept(u: Tables, name: string)
    requires Matches(NAMING_REGEX, name)
    ensures SanitizeNaming(u, name) == name
  {
    NamingRegexAccepts(name);
  }

  /** A string that already looks like a result is not changed by cleaning. */
  lemma CleanedKeeps(u: Tables, s: string)
    requires Sound(u)
    requires forall i :: 0 <= i < |s| ==> Allowed(s[i])
    requires s != "" ==> s[0] != '-'
    ensures Cleaned(u, s) == s
  {
    assert ToLower(u, s) == s;
    assert TrimSpace(u, s) == s by {
      assert TrimLeft(u.space, s) == s;
      assert TrimRight(u.space, s) == s;
    }
    assert DashOut(s) == s;
  }

  ghost predicate LooksSanitized(s: string) {
    && (forall i :: 0 <= i < |s| ==> Allowed(s[i]))
    && (s != "" ==> s[0] != '-')
    && (|s| <= CHAR_LIMIT || IsName(s))
  }

  lemma SanitizeKeeps(u: Tables, s: string)
    requires Sound(u) && LooksSanitized(s)
    ensures SanitizeNaming(u, s) == s
  {
    CleanedKeeps(u, s);
  }

  /** Sanitizing a sanitized name changes nothing. */
  lemma SanitizeIdempotent(u: Tables, name: string)
    requires Sound(u)
    ensures SanitizeNaming(u, SanitizeNaming(u, name)) == SanitizeNaming(u, name)
  {
    var r := SanitizeNaming(u, name);
    assert LooksSanitized(r) by {
      SanitizedShape(u, name);
      NamingRegexAccepts(name);
    }
    SanitizeKeeps(u, r);
  }

  /** Some character is, in lower case, a letter or digit. */
  ghost predicate HasLetter(u: Tables, name: string) {
    exists i :: 0 <= i < |name| && Alphanumeric(u.lower(name[i]))
  }

  /** The part of a name that is kept: from its first letter or digit to its last character that is no white space. */
  ghost predicate Kept(u: Tables, name: string, start: int, end: int) {
    && 0 <= start < end <= |name|
    && Alphanumeric(u.lower(name[start]))
    && (forall i :: 0 <= i < start ==> !Alphanumeric(u.lower(name[i])))
    && !u.space(u.lower(name[end - 1]))
    && forall i :: end <= i < |name| ==> u.space(u.lower(name[i]))
  }

  /** `r` shows the characters of `s` from `start` to `end`; before them no letter or digit, after them white space. */
  ghost predicate Shows(u: Tables, s: string, r: string, start: int, end: int) {
    && 0 <= start <= end <= |s| && |r| == end - start
    && (forall i :: 0 <= i < end - start ==> r[i] == Shown(s[start + i]))
    && (forall i :: 0 <= i < start ==> !Alphanumeric(s[i]))
    && (forall i :: end <= i < |s| ==> u.space(s[i]))
    && (start < end ==> Alphanumeric(s[start]) && !u.space(s[end - 1]))
  }

  lemma CleanedShows(u: Tables, s: string) returns (start: nat, end: nat)
    requires Sound(u)
    ensures Shows(u, s, DropLeadingDashes(DashOut(TrimSpace(u, s))), start, end)
  {
    var trimmed := TrimSpace(u, s);
    var dashed := DashOut(trimmed);
    var a, b := TrimSpan(u, s);
    var d := DropSpan(dashed);
    start, end := a + d, b;
    SpansCompose(u, s, trimmed, dashed, DropLeadingDashes(dashed), a, b, d);
  }

  /** Trimming from `a` to `b`, showing, and dropping `d` dashes, put together. */
  lemma SpansCompose(u: Tables, s: string, trimmed: string, dashed: string, r: string,
                     a: nat, b: nat, d: nat)
    requires Sound(u) && a <= b <= |s| && |trimmed| == |dashed| == b - a && d <= b - a && |r| == b - a - d
    requires forall i :: 0 <= i < b - a ==> trimmed[i] == s[a + i]
    requires forall i :: 0 <= i < a || b <= i < |s| ==> u.space(s[i])
    requires a < b ==> !u.space(s[b - 1])
    requires forall i :: 0 <= i < b - a ==> dashed[i] == Shown(trimmed[i])
    requires forall i :: 0 <= i < |r| ==> r[i] == dashed[d + i]
    requires forall i :: 0 <= i < d ==> dashed[i] == '-'
    requires d < |dashed| ==> dashed[d] != '-'
    ensures Shows(u, s, r, a + d, b)
  {
    forall i | 0 <= i < |r| ensures r[i] == Shown(s[a + d + i]) {
      assert dashed[d + i] == Shown(trimmed[d + i]) == Shown(s[a + (d + i)]);
    }
    forall i | 0 <= i < a + d ensures !Alphanumeric(s[i]) {
      if i >= a { assert dashed[i - a] == '-' && trimmed[i - a] == s[i]; }
    }
    if d < |dashed| { assert trimmed[d] == s[a + d]; }
  }

  /** Cleaning yields the kept part in lower case, dashes for all else; or nothing, if no letter is there. */
  lemma CleanedContent(u: Tables, name: string) returns (start: nat, end: nat)
    requires Sound(u)
    ensures HasLetter(u, name) <==> Cleaned(u, name) != ""
    ensures HasLetter(u, name) ==> Kept(u, name, start, end)
    ensures HasLetter(u, name) ==> |Cleaned(u, name)| == end - start
    ensures HasLetter(u, name) ==>
              forall i :: 0 <= i < end - start ==> Cleaned(u, name)[i] == Shown(u.lower(name[start + i]))
  {
    var lowered := ToLower(u, name);
    start, end := CleanedShows(u, lowered);
    LetterOrNothing(u, name, lowered, Cleaned(u, name), start, end);
  }

  lemma LetterOrNothing(u: Tables, name: string, lowered: string, r: string, start: nat, end: nat)
    requires Sound(u) && Shows(u, lowered, r, start, end)
    requires |lowered| == |name| && forall i :: 0 <= i < |name| ==> lowered[i] == u.lower(name[i])
    ensures HasLetter(u, name) <==> r != ""
    ensures HasLetter(u, name) ==> Kept(u, name, start, end)
    ensures forall i :: 0 <= i < end - start ==> r[i] == Shown(u.lower(name[start + i]))
  {
    if start < end {
      assert Alphanumeric(u.lower(name[start]));
      assert lowered[end - 1] == u.lower(name[end - 1]);
    } else {
      assert forall c :: Alphanumeric(c) ==> Allowed(c);
    }
  }

  lemma NameHasLetter(u: Tables, name: string)
    requires Sound(u) && IsName(name)
    ensures HasLetter(u, name)
  {
    assert u.lower(name[0]) == name[0];
  }

  /** Nothing is left exactly when the name has no letter or digit. */
  lemma SanitizedEmptyIff(u: Tables, name: string)
    requires Sound(u)
    ensures SanitizeNaming(u, name) == "" <==> !HasLetter(u, name)
  {
    if name != "" && IsName(name) { NameHasLetter(u, name); } else { var start, end := CleanedContent(u, name); }
    assert |SanitizeNaming(u, name)| == 0 <==> !HasLetter(u, name);
  }

  /** `r` shows the characters from `start` on, in lower case, up to `end` or the length limit. */
  ghost predicate ShowsCut(u: Tables, name: string, r: string, start: nat, end: nat)
    requires start <= end <= |name|
  {
    && |r| == (if end - start > CHAR_LIMIT then CHAR_LIMIT else end - start)
    && forall i :: 0 <= i < |r| ==> r[i] == Shown(u.lower(name[start + i]))
  }

  /** What a result says about its input: the kept part, shown, and cut at the limit. */
  lemma SanitizedContent(u: Tables, name: string) returns (start: nat, end: nat)
    requires Sound(u) && HasLetter(u, name) && !IsName(name)
    ensures Kept(u, name, start, end)
    ensures ShowsCut(u, name, SanitizeNaming(u, name), start, end)
    ensures |SanitizeNaming(u, name)| == if end - start > 253 then 253 else end - start
    ensures forall i :: 0 <= i < |SanitizeNaming(u, name)| ==>
              var c := u.lower(name[start + i]);
              SanitizeNaming(u, name)[i] == if c == '-' || 'a' <= c <= 'z' || '0' <= c <= '9' then c else '-'
  {
    start, end := CleanedContent(u, name);
    assert SanitizeNaming(u, name) == Limited(Cleaned(u, name));
  }

  lemma KeptUnique(u: Tables, name: string, a: int, b: int, c: int, d: int)
    requires Kept(u, name, a, b) && Kept(u, name, c, d)
    ensures a == c && b == d
  {
  }

  /** The `n` characters from `start` on end with a letter or digit and have no two others in a row. */
  ghost predicate NameLike(u: Tables, name: string, start: int, n: int) {
    && 0 <= start && 0 < n && start + n <= |name|
    && Alphanumeric(u.lower(name[start + n - 1]))
    && forall i, j :: start <= i < start + n && j == i + 1 && j < start + n ==>
         Alphanumeric(u.lower(name[i])) || Alphanumeric(u.lower(name[j]))
  }

  /** Exactly when a result is a name: what is kept, cut at the limit, already looks like one. */
  lemma SanitizedIsNameIff(u: Tables, name: string, start: nat, end: nat)
    requires Sound(u) && !IsName(name) && Kept(u, name, start, end)
    ensures IsName(SanitizeNaming(u, name)) <==>
            NameLike(u, name, start, if end - start > 253 then 253 else end - start)
  {
    KeptShown(u, name, start, end);
    NameShown(u, name, start, SanitizeNaming(u, name));
  }

  lemma KeptShown(u: Tables, name: string, start: nat, end: nat)
    requires Sound(u) && !IsName(name) && Kept(u, name, start, end)
    ensures ShowsCut(u, name, SanitizeNaming(u, name), start, end)
  {
    var s, e := SanitizedContent(u, name);
    KeptUnique(u, name, start, end, s, e);
  }

  /** A shown character is a dash exactly when it is no letter or digit. */
  lemma NameShown(u: Tables, name: string, start: nat, r: string)
    requires r != "" && start + |r| <= |name| && Alphanumeric(u.lower(name[start]))
    requires forall i :: 0 <= i < |r| ==> r[i] == Shown(u.lower(name[start + i]))
    ensures IsName(r) <==> NameLike(u, name, start, |r|)
  {
    assert forall i :: start <= i < start + |r| ==> r[i - start] == Shown(u.lower(name[i]));
    assert forall i :: 0 <= i < |r| ==> (r[i] == '-' <==> !Alphanumeric(u.lower(name[start + i])));
    if IsName(r) {
      forall i, j | start <= i < start + |r| && j == i + 1 && j < start + |r|
        ensures Alphanumeric(u.lower(name[i])) || Alphanumeric(u.lower(name[j])) {
        assert r[i - start] != '-' || r[j - start] != '-';
      }
    }
  }

  /** A sanitized name need not match the naming pattern: it may end with a dash. */
  lemma SanitizedMayBeNoName(u: Tables)
    requires Sound(u) && u.lower('!') == '!' && !u.space('!')
    ensures SanitizeNaming(u, "a!") == "a-" && !Matches(NAMING_REGEX, "a-")
  {
    var s := "a!";
    assert !IsName(s) by { assert !Allowed(s[1]); }
    assert ToLower(u, s) == s;
    assert TrimLeft(u.space, s) == s && TrimRight(u.space, s) == s;
    assert DashOut(s) == "a-";
    assert DropLeadingDashes("a-") == "a-";
    NamingRegexAccepts("a-");
  }

  // -------------------------------------------------------------- extraction

  /** The three places a workflow may be named in, in order of preference. */
  datatype Workflow = Workflow(id: string, key: string, name: string)

  function ExtractName(u: Tables, w: Workflow): string {
    if |w.id| > 0 then SanitizeNaming(u, w.id)
    else if |w.key| > 0 then SanitizeNaming(u, w.key)
    else if |w.name| > 0 then SanitizeNaming(u, w.name)
    else ""
  }

  function FirstGiven(names: seq<string>): string {
    if names == [] then "" else if names[0] != "" then names[0] else FirstGiven(names[1..])
  }

  /** The first name given is the one that is sanitized. */
  lemma ExtractNamePrefers(u: Tables, w: Workflow)
    ensures ExtractName(u, w) == SanitizeNaming(u, FirstGiven([w.id, w.key, w.name]))
    ensures FirstGiven([w.id, w.key, w.name]) == if w.id != "" then w.id else if w.key != "" then w.key else w.name
  {
    var names := [w.id, w.key, w.name];
    assert names[1..] == [w.key, w.name] && names[1..][1..] == [w.name] && [w.name][1..] == [];
    assert FirstGiven([w.name]) == w.name;
    assert FirstGiven([w.key, w.name]) == if w.key != "" then w.key else FirstGiven([w.name]);
  }

  /** Extraction yields a fixpoint of sanitizing, and a workflow whose id is its own extracted name keeps it. */
  lemma ExtractNameStable(u: Tables, w: Workflow)
    requires Sound(u)
    ensures
      var r := ExtractName(u, w);
      SanitizeNaming(u, r) == r && (r != "" ==> ExtractName(u, w.(id := r)) == r)
  {
    SanitizeIdempotent(u, w.id);
    SanitizeIdempotent(u, w.key);
    SanitizeIdempotent(u, w.name);
  }
}
