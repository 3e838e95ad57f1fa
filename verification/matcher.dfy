/** The rule matcher: decides whether a file name belongs to a destination rule,
    and which rule of an ordered list claims a file. */
module Matcher {
  import opened Wrappers
  import opened FileSystem

  /** One configured destination rule: a target directory and optional name prefix/suffix
      (the empty string means "not set"). */
  datatype Destination = Destination(path: Path, prefix: string, suffix: string)

  /** `strings.HasPrefix`. */
  predicate HasPrefix(s: string, p: string) {
    |p| <= |s| && s[..|p|] == p
  }

  /** `strings.HasSuffix`. */
  predicate HasSuffix(s: string, x: string) {
    |x| <= |s| && s[|s| - |x|..] == x
  }

  /** HasPrefix agrees with the reference definition "s is p followed by something". */
  lemma HasPrefixIff(s: string, p: string)
    ensures HasPrefix(s, p) <==> exists rest :: s == p + rest
  {
    if HasPrefix(s, p) {
      assert s == p + s[|p|..];
    }
  }

  /** HasSuffix agrees with the reference definition "s is something followed by x". */
  lemma HasSuffixIff(s: string, x: string)
    ensures HasSuffix(s, x) <==> exists front :: s == front + x
  {
    if HasSuffix(s, x) {
      assert s == s[..|s| - |x|] + x;
    }
    if exists front :: s == front + x {
      var front :| s == front + x;
      assert s[|s| - |x|..] == x;
    }
  }

  /** The file name test of one rule: every condition that is set must hold,
      and a rule with neither condition set matches nothing. */
  function MatchesPattern(filename: string, dest: Destination): (r: bool)
    ensures r <==> (dest.prefix != "" || dest.suffix != "")
                   && (dest.prefix != "" ==> HasPrefix(filename, dest.prefix))
                   && (dest.suffix != "" ==> HasSuffix(filename, dest.suffix))
  {
    if dest.prefix != "" && dest.suffix != "" then
      HasPrefix(filename, dest.prefix) && HasSuffix(filename, dest.suffix)
    else if dest.prefix != "" then
      HasPrefix(filename, dest.prefix)
    else if dest.suffix != "" then
      HasSuffix(filename, dest.suffix)
    else
      false
  }

  /** A rule with both a prefix and a suffix matches exactly the names that start with the
      prefix and end with the suffix. */
  lemma BothConditionsRequired(filename: string, dest: Destination)
    requires dest.prefix != "" && dest.suffix != ""
    ensures MatchesPattern(filename, dest)
            <==> (exists rest :: filename == dest.prefix + rest)
                 && (exists front :: filename == front + dest.suffix)
  {
    HasPrefixIff(filename, dest.prefix);
    HasSuffixIff(filename, dest.suffix);
  }

  /** With only one condition set, that condition alone decides; with none set, no name matches. */
  lemma SingleConditionDecides(filename: string, dest: Destination)
    ensures dest.prefix != "" && dest.suffix == "" ==>
              (MatchesPattern(filename, dest) <==> exists rest :: filename == dest.prefix + rest)
    ensures dest.prefix == "" && dest.suffix != "" ==>
              (MatchesPattern(filename, dest) <==> exists front :: filename == front + dest.suffix)
    ensures dest.prefix == "" && dest.suffix == "" ==> !MatchesPattern(filename, dest)
  {
    HasPrefixIff(filename, dest.prefix);
    HasSuffixIff(filename, dest.suffix);
  }

  /** The index of the first rule, in list order, whose pattern the name matches. */
  function FirstMatch(filename: string, rules: seq<Destination>): (r: Option<nat>)
    ensures r.Some? ==> r.value < |rules| && MatchesPattern(filename, rules[r.value])
    ensures r.Some? ==> forall j :: 0 <= j < r.value ==> !MatchesPattern(filename, rules[j])
    ensures r.None? <==> forall j :: 0 <= j < |rules| ==> !MatchesPattern(filename, rules[j])
  {
    if rules == [] then None
    else if MatchesPattern(filename, rules[0]) then Some(0)
    else match FirstMatch(filename, rules[1..])
      case None => None
      case Some(k) => Some(k + 1)
  }

  /** A rule placed before every other matching rule is the one chosen, whatever follows it. */
  lemma {:induction false} FirstMatchIgnoresLaterRules(filename: string, rules: seq<Destination>, more: seq<Destination>)
    requires FirstMatch(filename, rules).Some?
    ensures FirstMatch(filename, rules + more) == FirstMatch(filename, rules)
  {
    if !MatchesPattern(filename, rules[0]) {
      assert (rules + more)[1..] == rules[1..] + more;
      FirstMatchIgnoresLaterRules(filename, rules[1..], more);
    }
  }

  /** The file `report_2024.csv` under the rules `prefix report_ -> /archive` and
      `suffix .csv -> /csv` goes to the first rule listed, in either order. */
  lemma OverlappingRulesScenario()
    ensures var name := "report_2024.csv";
            var archive := Destination(["archive"], "report_", "");
            var csv := Destination(["csv"], "", ".csv");
            FirstMatch(name, [archive, csv]) == Some(0)
            && FirstMatch(name, [csv, archive]) == Some(0)
            && MatchesPattern(name, archive) && MatchesPattern(name, csv)
  {
  }
}
