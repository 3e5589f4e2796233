/** Which ingestion runs `main` starts when it is given command-line
    arguments: each argument is compared, ignoring case the way Java's
    `String.equalsIgnoreCase` does, with the module names. */
module Selection {

  /** `Character.toUpperCase` on the characters whose upper case is an ASCII
      letter: `a`..`z`, dotless ı (U+0131) and long ſ (U+017F). */
  function ToUpper(c: char): char {
    if 'a' <= c <= 'z' then (c as int - 32) as char
    else if c == '\U{0131}' then 'I'
    else if c == '\U{017F}' then 'S'
    else c
  }

  /** `Character.toLowerCase` on the characters whose lower case is an ASCII
      letter: `A`..`Z`, dotted İ (U+0130) and the Kelvin sign (U+212A). */
  function ToLower(c: char): char {
    if 'A' <= c <= 'Z' then (c as int + 32) as char
    else if c == '\U{0130}' then 'i'
    else if c == '\U{212A}' then 'k'
    else c
  }

  /** Java's per-character test in `regionMatches(true, ...)`: equal, equal in
      upper case, or equal in the lower case of the upper case. */
  predicate CharEqualsIgnoreCase(a: char, b: char) {
    a == b || ToUpper(a) == ToUpper(b) || ToLower(ToUpper(a)) == ToLower(ToUpper(b))
  }

  predicate EqualsIgnoreCase(s: string, t: string) {
    |s| == |t| && forall i :: 0 <= i < |s| ==> CharEqualsIgnoreCase(s[i], t[i])
  }

  predicate IsIncidentArg(s: string) {
    EqualsIgnoreCase(s, "incident") || EqualsIgnoreCase(s, "incidents")
  }

  predicate IsChangeArg(s: string) {
    EqualsIgnoreCase(s, "change") || EqualsIgnoreCase(s, "changes")
  }

  predicate AsksForIncidents(args: seq<string>) {
    exists a :: a in args && IsIncidentArg(a)
  }

  predicate AsksForChanges(args: seq<string>) {
    exists a :: a in args && IsChangeArg(a)
  }

  /** The `for (String module : args)` loop that sets the two flags. */
  method ScanArguments(args: seq<string>) returns (readIncidents: bool, readChange: bool)
    ensures readIncidents <==> exists a :: a in args && IsIncidentArg(a)
    ensures readChange <==> exists a :: a in args && IsChangeArg(a)
  {
    readIncidents, readChange := false, false;
    for k := 0 to |args|
      invariant readIncidents <==> exists a :: a in args[..k] && IsIncidentArg(a)
      invariant readChange <==> exists a :: a in args[..k] && IsChangeArg(a)
    {
      var arg := args[k];
      assert args[..k + 1] == args[..k] + [arg];
      if IsIncidentArg(arg) {
        readIncidents := true;
      }
      if IsChangeArg(arg) {
        readChange := true;
      }
    }
    assert args[..|args|] == args;
  }

  /** The ingestion runs `main` can start. */
  datatype Module = Incidents | Changes

  /** The runs the two flags trigger, in the order `main` starts them. */
  function Plan(args: seq<string>): (p: seq<Module>)
    ensures Incidents in p <==> AsksForIncidents(args)
    ensures Changes in p <==> AsksForChanges(args)
    ensures forall i, j :: 0 <= i < j < |p| ==> p[i] == Incidents && p[j] == Changes
  {
    (if AsksForIncidents(args) then [Incidents] else []) + (if AsksForChanges(args) then [Changes] else [])
  }

  /** Only the arguments that name a module matter: the order of the
      arguments, their repetition and every other argument have no effect. */
  lemma SelectionDependsOnlyOnModuleNames(args: seq<string>, other: seq<string>)
    requires forall a :: IsIncidentArg(a) || IsChangeArg(a) ==> (a in args <==> a in other)
    ensures Plan(args) == Plan(other)
  {
    if a :| a in args && IsIncidentArg(a) {
      assert a in other;
    }
    if a :| a in other && IsIncidentArg(a) {
      assert a in args;
    }
    if a :| a in args && IsChangeArg(a) {
      assert a in other;
    }
    if a :| a in other && IsChangeArg(a) {
      assert a in args;
    }
  }

  /** `ToLower` on ASCII input: the lower-case reference the comparison is
      checked against below. */
  function LowerAscii(s: string): (r: string)
    ensures |r| == |s|
  {
    if s == [] then [] else [ToLower(s[0])] + LowerAscii(s[1..])
  }

  predicate IsAscii(s: string) {
    forall i :: 0 <= i < |s| ==> s[i] < 128 as char
  }

  predicate IsLowerWord(s: string) {
    forall i :: 0 <= i < |s| ==> 'a' <= s[i] <= 'z'
  }

  lemma {:induction false} LowerAsciiAt(s: string, i: nat)
    requires i < |s|
    ensures LowerAscii(s)[i] == ToLower(s[i])
  {
    if i > 0 {
      LowerAsciiAt(s[1..], i - 1);
    }
  }

  /** On ASCII input, comparing with a lower-case word ignoring case is
      comparing the input's lower case with the word. */
  lemma IgnoreCaseIsLowerCaseEquality(s: string, word: string)
    requires IsAscii(s) && IsLowerWord(word)
    ensures EqualsIgnoreCase(s, word) <==> LowerAscii(s) == word
  {
    if |s| == |word| {
      forall i | 0 <= i < |s| ensures LowerAscii(s)[i] == ToLower(s[i]) {
        LowerAsciiAt(s, i);
      }
      if EqualsIgnoreCase(s, word) {
        assert forall i :: 0 <= i < |s| ==> LowerAscii(s)[i] == word[i];
      }
      if LowerAscii(s) == word {
        assert forall i :: 0 <= i < |s| ==> ToLower(s[i]) == word[i];
      }
    }
  }

  /** Spellings that select a module, including the two whose non-ASCII
      letters Java folds onto the keyword's letters. */
  lemma ModuleNameSpellings()
    ensures IsIncidentArg("INCIDENTS") && IsIncidentArg("Incident")
    ensures IsIncidentArg("\U{0131}ncident") && IsChangeArg("change\U{017F}")
    ensures !IsIncidentArg("incidentss") && !IsChangeArg("chang") && !IsIncidentArg("change")
  {
    assert !CharEqualsIgnoreCase('g', 'e');
    assert !CharEqualsIgnoreCase('c', 'i');
  }
}
