/**
 * Classification of a User-Agent string into an operating system, a browser
 * and a search-robot flag, by ordered first-match rules over the upper-cased
 * text. Regular expressions of the form ".*\bWORD.*" are stated directly:
 * word boundaries over ASCII word characters, and ".*" that, as in Java,
 * matches no line terminator.
 */
module UserAgents {
  import opened Outcomes
  import opened Text

  datatype Os = Windows | Android | Ios | MacOs | Linux | UnknownOs
  datatype Browser = Chrome | Firefox | Edge | Opera | Safari | Ie | UnknownBrowser

  /** The classification of one User-Agent string; never partial. */
  datatype UserAgent = UserAgent(os: Os, browser: Browser, isBot: bool)

  /** The characters Java's "." refuses when no flags are given. */
  predicate IsLineTerminator(c: char) {
    c == '\n' || c == '\r' || c == '\U{85}' || c == '\U{2028}' || c == '\U{2029}'
  }

  function SingleLine(s: string): (r: bool)
    ensures r <==> forall i :: 0 <= i < |s| ==> !IsLineTerminator(s[i])
  {
    if s == [] then true else !IsLineTerminator(s[0]) && SingleLine(s[1..])
  }

  /** The regular-expression word boundary \b between positions i - 1 and i. */
  predicate IsBoundary(s: string, i: nat)
    requires i <= |s|
  {
    (i > 0 && IsWordChar(s[i - 1])) != (i < |s| && IsWordChar(s[i]))
  }

  /** w occurs in s at index i. */
  predicate StartsAt(s: string, i: nat, w: string)
    decreases |w|
  {
    |w| == 0 || (i < |s| && s[i] == w[0] && StartsAt(s, i + 1, w[1..]))
  }

  lemma {:induction false} StartsAtSlice(s: string, i: nat, w: string)
    requires i <= |s|
    ensures StartsAt(s, i, w) <==> i + |w| <= |s| && s[i..i + |w|] == w
    decreases |w|
  {
    if |w| > 0 && i < |s| {
      StartsAtSlice(s, i + 1, w[1..]);
      if i + |w| <= |s| {
        var t := s[i..i + |w|];
        assert t[0] == s[i] && t[1..] == s[i + 1..i + 1 + |w[1..]|];
        if StartsAt(s, i, w) {
          assert t == [t[0]] + t[1..] && w == [w[0]] + w[1..];
        }
        if t == w {
          assert t[0] == w[0] && t[1..] == w[1..];
        }
      }
    }
  }

  /**
   * A word to find, with a word boundary required before it (leading) and
   * after it (trailing): "\bCHROME/" is Pattern("CHROME/", true, false).
   */
  datatype Pattern = Pattern(word: string, leading: bool, trailing: bool)

  predicate MatchesAt(s: string, i: nat, p: Pattern) {
    && i + |p.word| <= |s|
    && StartsAt(s, i, p.word)
    && (p.leading ==> IsBoundary(s, i))
    && (p.trailing ==> IsBoundary(s, i + |p.word|))
  }

  /** Whether p matches somewhere at or after from. */
  function SearchFrom(s: string, p: Pattern, from: nat): (r: bool)
    decreases |s| + 1 - from
    ensures r <==> exists i :: from <= i && MatchesAt(s, i, p)
  {
    if from > |s| then false else MatchesAt(s, from, p) || SearchFrom(s, p, from + 1)
  }

  /** String.matches(".*(P1|P2|...).*"): one alternative occurs and the string has no line terminator. */
  function Matches(s: string, alternatives: seq<Pattern>): bool {
    SingleLine(s) && AnyFrom(s, alternatives, 0)
  }

  function AnyFrom(s: string, alternatives: seq<Pattern>, k: nat): (r: bool)
    requires k <= |alternatives|
    decreases |alternatives| - k
    ensures r <==> exists j, i :: k <= j < |alternatives| && MatchesAt(s, i, alternatives[j])
  {
    if k == |alternatives| then false
    else SearchFrom(s, alternatives[k], 0) || AnyFrom(s, alternatives, k + 1)
  }

  lemma MatchesMeaning(s: string, alternatives: seq<Pattern>)
    ensures Matches(s, alternatives) <==>
            SingleLine(s) && exists k, i :: 0 <= k < |alternatives| && MatchesAt(s, i, alternatives[k])
  {
  }

  /** An entry of an ordered rule list: its label and the regular expression that selects it. */
  datatype Rule<L> = Rule(tag: L, patterns: seq<Pattern>)

  function Token(w: string): Pattern { Pattern(w, true, false) }
  function Word(w: string): Pattern { Pattern(w, true, true) }

  /** The browser rules in their declaration order, which is their priority. */
  const BrowserRules: seq<Rule<Browser>> := [
    Rule(Chrome, [Token("CHROME/")]),
    Rule(Firefox, [Token("FIREFOX/")]),
    Rule(Edge, [Token("EDG/")]),
    Rule(Opera, [Token("OPR/")]),
    Rule(Safari, [Token("MOBILE/")]),
    Rule(Ie, [Token("IEMOBILE/")])
  ]

  /** The operating-system rules in their declaration order, which is their priority. */
  const OsRules: seq<Rule<Os>> := [
    Rule(Windows, [Word("WINDOWS")]),
    Rule(Android, [Word("ANDROID")]),
    Rule(Ios, [Word("IPHONE"), Word("IPAD")]),
    Rule(MacOs, [Word("MAC OS")]),
    Rule(Linux, [Word("LINUX")])
  ]

  /** ".*BOT\b.*": BOT followed by a word boundary, with none needed before it. */
  const BotPattern: Pattern := Pattern("BOT", false, true)

  /** The index of the first rule at or after k whose expression matches s. */
  function FirstMatchFrom<L>(s: string, rules: seq<Rule<L>>, k: nat): (r: Option<nat>)
    requires k <= |rules|
    decreases |rules| - k
    ensures r.Some? ==> k <= r.value < |rules| && Matches(s, rules[r.value].patterns)
    ensures r.Some? ==> forall j :: k <= j < r.value ==> !Matches(s, rules[j].patterns)
    ensures r.None? <==> forall j :: k <= j < |rules| ==> !Matches(s, rules[j].patterns)
  {
    if k == |rules| then None
    else if Matches(s, rules[k].patterns) then Some(k)
    else FirstMatchFrom(s, rules, k + 1)
  }

  /** A rule that matches, after rules that do not, is the first match. */
  lemma FirstMatchAt<L>(s: string, rules: seq<Rule<L>>, i: nat)
    requires i < |rules| && Matches(s, rules[i].patterns)
    requires forall j :: 0 <= j < i ==> !Matches(s, rules[j].patterns)
    ensures FirstMatchFrom(s, rules, 0) == Some(i)
  {
  }

  /** The label of the first matching rule, or the default when none matches. */
  function FirstLabel<L>(s: string, rules: seq<Rule<L>>, default: L): L {
    match FirstMatchFrom(s, rules, 0)
    case Some(k) => rules[k].tag
    case None => default
  }

  /** The operating system of an upper-cased User-Agent string. */
  function OsOf(upper: string): Os {
    FirstLabel(upper, OsRules, UnknownOs)
  }

  /** The browser of an upper-cased User-Agent string. */
  function BrowserOf(upper: string): Browser {
    FirstLabel(upper, BrowserRules, UnknownBrowser)
  }

  /** The robot test of an upper-cased User-Agent string. */
  predicate IsBot(upper: string) {
    Matches(upper, [BotPattern])
  }

  /** The classification the UserAgent constructor computes. */
  function Classify(agent: string): UserAgent {
    var upper := ToUpper(agent);
    UserAgent(OsOf(upper), BrowserOf(upper), IsBot(upper))
  }

  /**
   * One of the constructor's two rule loops: try the rules in order and stop
   * at the first whose expression matches; None stands for Java's null.
   */
  method FindFirstRule<L>(upper: string, rules: seq<Rule<L>>) returns (found: Option<L>)
    ensures found == (match FirstMatchFrom(upper, rules, 0) case Some(k) => Some(rules[k].tag) case None => None)
  {
    found := None;
    var i := 0;
    while i < |rules|
      invariant 0 <= i <= |rules|
      invariant forall j :: 0 <= j < i ==> !Matches(upper, rules[j].patterns)
    {
      if Matches(upper, rules[i].patterns) {
        FirstMatchAt(upper, rules, i);
        found := Some(rules[i].tag);
        return;
      }
      i := i + 1;
    }
  }

  /**
   * The UserAgent constructor: upper-case the text once, take the first
   * matching browser rule, then the first matching OS rule, then the bot test.
   */
  method NewUserAgent(agent: string) returns (ua: UserAgent)
    ensures ua == Classify(agent)
  {
    var upper := ToUpper(agent);
    var tmpBrowser := FindFirstRule(upper, BrowserRules);
    var browser := if tmpBrowser.None? then UnknownBrowser else tmpBrowser.value;
    var tmpOs := FindFirstRule(upper, OsRules);
    var os := if tmpOs.None? then UnknownOs else tmpOs.value;
    var isBot := Matches(upper, [BotPattern]);
    ua := UserAgent(os, browser, isBot);
  }

  /** Upper-casing first changes nothing: the classification ignores letter case. */
  lemma ClassifyIgnoresCase(agent: string)
    ensures Classify(ToUpper(agent)) == Classify(agent)
  {
    ToUpperIdempotent(agent);
  }

  /** The empty string is classified as UNKNOWN, UNKNOWN and not a robot. */
  lemma EmptyAgent()
    ensures Classify("") == UserAgent(UnknownOs, UnknownBrowser, false)
  {
  }

  /** The CHROME rule comes first, so it wins over every other browser token, EDG/ included. */
  lemma ChromeOutranksOtherBrowsers(agent: string)
    requires Matches(ToUpper(agent), [Token("CHROME/")])
    ensures Classify(agent).browser == Chrome
  {
  }

  /** The WINDOWS rule comes first, so it wins over every other system word, LINUX included. */
  lemma WindowsOutranksOtherSystems(agent: string)
    requires Matches(ToUpper(agent), [Word("WINDOWS")])
    ensures Classify(agent).os == Windows
  {
  }

  /** Inside IEMOBILE/ there is no word boundary before MOBILE/, so the SAFARI token is not found there. */
  lemma NoMobileTokenInsideIeMobile(s: string, i: nat)
    requires StartsAt(s, i, "IEMOBILE/")
    ensures !MatchesAt(s, i + 2, Token("MOBILE/"))
  {
    StartsAtSlice(s, i, "IEMOBILE/");
    assert s[i..i + 9][1] == 'E' && s[i..i + 9][2] == 'M';
  }

  /**
   * An agent whose only browser token is IEMOBILE/ is IE, not SAFARI: every
   * MOBILE/ in it is the tail of an IEMOBILE/, where no boundary precedes it.
   */
  lemma IeMobileIsIe(upper: string, i: nat)
    requires SingleLine(upper) && MatchesAt(upper, i, Token("IEMOBILE/"))
    requires forall k :: 0 <= k < 4 ==> !Matches(upper, BrowserRules[k].patterns)
    requires forall j: nat :: StartsAt(upper, j, "MOBILE/") ==> j >= 2 && StartsAt(upper, j - 2, "IEMOBILE/")
    ensures BrowserOf(upper) == Ie
  {
    forall j: nat | MatchesAt(upper, j, Token("MOBILE/"))
      ensures false
    {
      NoMobileTokenInsideIeMobile(upper, j - 2);
    }
    MatchesMeaning(upper, BrowserRules[4].patterns);
    MatchesMeaning(upper, BrowserRules[5].patterns);
    FirstMatchAt(upper, BrowserRules, 5);
  }

  lemma GooglebotIsBot()
    ensures IsBot("GOOGLEBOT/2.1")
  {
    assert MatchesAt("GOOGLEBOT/2.1", 6, BotPattern);
    MatchesMeaning("GOOGLEBOT/2.1", [BotPattern]);
  }

  lemma BotanyIsNotBot()
    ensures !IsBot("BOTANY")
  {
  }
}
