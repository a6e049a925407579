/**
 * The stand-alone query script query-locterms.py: its single-flag style
 * mapping, `colorized`, `msg`, the checks of the command line, the
 * database URL, and the output of the trace action. Styled output is the
 * abstract `Query.Out`; the paths and their rendering are those of the
 * `Trace` module, which the script's `get_paths` and `print_paths`
 * (query-locterms.py:109-139) compute in the same way.
 */
module QueryScript {
  import opened Wrappers
  import opened Text
  import opened Lcsh
  import opened Trace
  import Query

  // ---------------------------------------------------------------------
  // color_codes, colorized and msg

  /**
   * `color_codes` (query-locterms.py:213-227): one flag, tested against
   * error, warning, info and underline in turn; anything else gives no
   * style. The attribute list is empty or just `underline`.
   */
  function ScriptCodes(flag: Option<string>): (c: Query.Codes)
    ensures flag == Some("error") ==> c == Query.Codes("ERROR", "red", [])
    ensures flag == Some("warning") ==> c == Query.Codes("WARNING", "yellow", [])
    ensures flag == Some("info") ==> c == Query.Codes("", "green", [])
    ensures flag == Some("underline") ==> c == Query.Codes("", "", ["underline"])
    ensures flag !in {Some("error"), Some("warning"), Some("info"), Some("underline")} ==> c == Query.Codes("", "", [])
  {
    if flag == Some("error") then Query.Codes("ERROR", "red", [])
    else if flag == Some("warning") then Query.Codes("WARNING", "yellow", [])
    else if flag == Some("info") then Query.Codes("", "green", [])
    else if flag == Some("underline") then Query.Codes("", "", ["underline"])
    else Query.Codes("", "", [])
  }

  /** The flags the script knows. */
  predicate Known(f: string) {
    f == "error" || f == "warning" || f == "info" || f == "underline"
  }

  /**
   * On the flags it knows, the single-flag mapping agrees with the
   * list-based `color_codes` of the packaged front ends; on any other flag
   * it gives no style at all.
   */
  lemma ScriptCodesAgree(f: string)
    ensures Known(f) ==> ScriptCodes(Some(f)) == Query.CodesFor(Query.Flag(f))
    ensures !Known(f) ==> ScriptCodes(Some(f)) == Query.Codes("", "", [])
    ensures ScriptCodes(None) == Query.CodesFor(Query.NoFlags)
  {
    if Known(f) {
      SingleFlagCodes(f);
    } else {
      UnknownFlagCodes(f);
    }
    NoFlagCodes();
  }

  lemma UnknownFlagCodes(f: string)
    requires !Known(f)
    ensures ScriptCodes(Some(f)) == Query.Codes("", "", [])
  {
  }

  lemma NoFlagCodes()
    ensures ScriptCodes(None) == Query.CodesFor(Query.NoFlags)
  {
    Query.AttrsUnrolled([]);
    assert Query.FlagNames(Query.NoFlags) == [];
  }

  /** The packaged `color_codes` on one of the flags the script knows. */
  lemma SingleFlagCodes(f: string)
    requires Known(f)
    ensures Query.CodesFor(Query.Flag(f)) == ScriptCodes(Some(f))
  {
    Query.AttrsUnrolled([f]);
    if f == "error" {
      assert Query.PrefixFor([f]) == "ERROR" && Query.ColorFor([f]) == "red";
    } else if f == "warning" {
      assert Query.PrefixFor([f]) == "WARNING" && Query.ColorFor([f]) == "yellow";
    } else if f == "info" {
      assert Query.PrefixFor([f]) == "" && Query.ColorFor([f]) == "green";
    } else {
      assert Query.PrefixFor([f]) == "" && Query.ColorFor([f]) == "";
    }
  }

  /**
   * `colorized` (query-locterms.py:197-210): with colour, attributes take
   * priority over the colour; without, the text is prefixed with the
   * prefix and a colon, if there is a prefix.
   */
  function Colorized(text: string, flag: Option<string>, colorize: bool): (r: Query.Out)
    ensures !colorize ==> r == Query.Plain(if ScriptCodes(flag).prefix != "" then ScriptCodes(flag).prefix + ": " + text else text)
    ensures colorize ==> r.text == text
    ensures colorize && ScriptCodes(flag).attrs != [] ==> r == Query.Colored(text, "", ScriptCodes(flag).attrs)
    ensures colorize && r.Colored? && r.attrs == [] ==> r.color == ScriptCodes(flag).color
  {
    var c := ScriptCodes(flag);
    if colorize then
      if c.attrs != [] then Query.Colored(text, "", c.attrs)
      else if c.color != "" then Query.Colored(text, c.color, [])
      else Query.Plain(text)
    else if c.prefix != "" then Query.Plain(c.prefix + ": " + text)
    else Query.Plain(text)
  }

  /**
   * A single flag never asks for both a colour and an attribute, so
   * `colorized` styles a known flag exactly as the packaged `colorcode` does.
   */
  lemma ColorizedAgrees(text: string, f: string, colorize: bool)
    requires Known(f)
    ensures Colorized(text, Some(f), colorize) == Query.ColorCode(text, Query.Flag(f), colorize)
  {
    ScriptCodesAgree(f);
  }

  /**
   * `msg` as written (query-locterms.py:190-194): with colour it prints
   * `colorized(text)`, dropping its flag, so nothing is ever styled.
   */
  function MsgAsWritten(text: string, flag: Option<string>, colorize: bool): (r: Query.Out)
    ensures r == Query.Plain(text)
  {
    if colorize then Colorized(text, None, true) else Query.Plain(text)
  }

  /** The flag is lost: an error message comes out unstyled even with colour on. */
  lemma MsgDropsFlag(text: string)
    ensures MsgAsWritten(text, Some("error"), true) == Query.Plain(text)
    ensures Msg(text, Some("error"), true) == Query.Colored(text, "red", [])
    ensures MsgAsWritten(text, Some("error"), true) != Msg(text, Some("error"), true)
  {
  }

  /** `msg` as evidently intended: with colour the text is styled by its flag; without, printed as it is. */
  function Msg(text: string, flag: Option<string>, colorize: bool): (r: Query.Out)
    ensures !colorize ==> r == Query.Plain(text)
    ensures colorize ==> r == Colorized(text, flag, true)
  {
    if colorize then Colorized(text, flag, true) else Query.Plain(text)
  }

  /** Styled like the packaged `msg` on every flag the script knows. */
  lemma MsgAgrees(text: string, f: string, colorize: bool)
    requires Known(f)
    ensures Msg(text, Some(f), colorize) == Query.Msg(text, Query.Flag(f), colorize)
  {
    ColorizedAgrees(text, f, true);
  }

  // ---------------------------------------------------------------------
  // Command-line checks (query-locterms.py:47-66)

  /**
   * The arguments of `main`; an absent user, password or port is the
   * empty string, which is what the checks treat alike with `None`.
   */
  datatype ScriptArgs = ScriptArgs(describe: bool, trace: bool, user: string, password: string, host: string, port: string, terms: seq<string>)

  /**
   * The checks in order: an action is required, only one, a user and a
   * password, and some terms; each failure exits with a red message.
   * Then a non-`sh` identifier, or a given port nobody listens at, ends
   * `main` after a message printed by the script's own `msg`, which drops
   * its flag. `portIsInt` is whether Python's `int` accepts a given port
   * (when it does not, `int(port)` raises `ValueError` before the probe);
   * `occupied` is what the probe says.
   */
  function CheckScriptArgs(a: ScriptArgs, portIsInt: bool, occupied: bool, colorize: bool): (r: Query.Decision)
    ensures r.Return? ==> r.message.Plain?
    ensures r.Return? ==>
      || r.message.text == "Identifiers must be LCSH identifiers, like sh960086680"
      || r.message.text == "Nothing appears to be listening at port " + a.port
  {
    if !a.trace && !a.describe then Query.Exit(Colorized("No action specified. Use -h for help.", Some("error"), true))
    else if a.trace && a.describe then Query.Exit(Colorized("Can only perform one action at a time.", Some("error"), true))
    else if a.user == "" || a.password == "" then Query.Exit(Colorized("Must provide a database user login and password.", Some("error"), true))
    else if a.terms == [] then Query.Exit(Colorized("No LCSH terms given. Use -h for help.", Some("error"), true))
    else if !Query.AllSubjectIds(a.terms) then Query.Return(MsgAsWritten("Identifiers must be LCSH identifiers, like sh960086680", Some("error"), colorize))
    else if a.port != "" && !portIsInt then Query.Crash("ValueError")
    else if a.port != "" && !occupied then Query.Return(MsgAsWritten("Nothing appears to be listening at port " + a.port, Some("error"), colorize))
    else Query.Proceed
  }

  /**
   * The script goes on exactly when one action is chosen, a user and a
   * password are given, there are terms, all of them `sh` identifiers, and
   * either no port is given or it is a number that answers. A port that is
   * not a number raises `ValueError` once the other checks pass.
   */
  lemma ScriptChecksProceed(a: ScriptArgs, portIsInt: bool, occupied: bool, colorize: bool)
    ensures CheckScriptArgs(a, portIsInt, occupied, colorize) == Query.Proceed <==>
      && (a.trace != a.describe)
      && a.user != "" && a.password != ""
      && a.terms != []
      && Query.AllSubjectIds(a.terms)
      && (a.port == "" || (portIsInt && occupied))
    ensures CheckScriptArgs(a, portIsInt, occupied, colorize).Crash? <==>
      && (a.trace != a.describe)
      && a.user != "" && a.password != ""
      && a.terms != []
      && Query.AllSubjectIds(a.terms)
      && a.port != "" && !portIsInt
  {
    var d := CheckScriptArgs(a, portIsInt, occupied, colorize);
    if (!a.trace && !a.describe) || (a.trace && a.describe) || a.user == "" || a.password == "" || a.terms == [] {
      assert d.Exit?;
    } else if !Query.AllSubjectIds(a.terms) {
      assert d.Return?;
    }
  }

  /** The checks that exit are exactly the first four, and they exit with a red message. */
  lemma ScriptChecksExit(a: ScriptArgs, portIsInt: bool, occupied: bool, colorize: bool)
    ensures CheckScriptArgs(a, portIsInt, occupied, colorize).Exit? <==>
      (!a.trace && !a.describe) || (a.trace && a.describe) || a.user == "" || a.password == "" || a.terms == []
    ensures CheckScriptArgs(a, portIsInt, occupied, colorize).Exit? ==>
      CheckScriptArgs(a, portIsInt, occupied, colorize).message.Colored? && CheckScriptArgs(a, portIsInt, occupied, colorize).message.color == "red"
  {
    var d := CheckScriptArgs(a, portIsInt, occupied, colorize);
    if d.Exit? {
      ErrorColorized(d.message.text);
    }
  }

  /** With colour, an error is red text. */
  lemma ErrorColorized(text: string)
    ensures Colorized(text, Some("error"), true) == Query.Colored(text, "red", [])
  {
  }

  /** Without a port neither the parse nor the probe matters. */
  lemma NoPortNoProbe(a: ScriptArgs, portIsInt: bool, occupied: bool, colorize: bool)
    requires a.port == ""
    ensures CheckScriptArgs(a, portIsInt, occupied, colorize) == CheckScriptArgs(a, !portIsInt, !occupied, colorize)
  {
  }

  /** The checks fire in order: a missing action is reported before missing credentials or terms. */
  lemma NoActionFirst(a: ScriptArgs, portIsInt: bool, occupied: bool, colorize: bool)
    requires !a.trace && !a.describe
    ensures CheckScriptArgs(a, portIsInt, occupied, colorize) == Query.Exit(Query.Colored("No action specified. Use -h for help.", "red", []))
  {
  }

  /** The checks as evidently intended: the two messages styled by their flag. */
  function CheckScriptArgsIntended(a: ScriptArgs, portIsInt: bool, occupied: bool, colorize: bool): Query.Decision {
    match CheckScriptArgs(a, portIsInt, occupied, colorize)
    case Return(m) => Query.Return(Msg(m.text, Some("error"), colorize))
    case d => d
  }

  /**
   * The intended checks decide as the written ones do and print the same
   * texts; only with colour on do their two messages come out red where
   * the written ones come out plain.
   */
  lemma IntendedChecksStyled(a: ScriptArgs, portIsInt: bool, occupied: bool, colorize: bool)
    ensures var w := CheckScriptArgs(a, portIsInt, occupied, colorize);
      var i := CheckScriptArgsIntended(a, portIsInt, occupied, colorize);
      && w.Exit? == i.Exit? && w.Return? == i.Return? && w.Crash? == i.Crash? && w.Proceed? == i.Proceed?
      && (!w.Return? ==> w == i)
      && (w.Return? ==> i.message.text == w.message.text
                        && (colorize ==> i.message == Query.Colored(w.message.text, "red", []))
                        && (!colorize ==> i == w))
  {
    var w := CheckScriptArgs(a, portIsInt, occupied, colorize);
    if w.Return? {
      MsgDropsFlag(w.message.text);
    }
  }

  // ---------------------------------------------------------------------
  // The database URL (query-locterms.py:70-73)

  const UrlTail: string := "/lcsh-db?authSource=admin"

  /** `'mongodb://' user ':' password '@' host [':' port] '/lcsh-db?authSource=admin'`. */
  function ScriptUrl(a: ScriptArgs): string {
    Query.UrlHead + a.user + ":" + a.password + "@" + HostPort(a.host, a.port) + UrlTail
  }

  /** The host, then a colon and the port if a port is given. */
  function HostPort(host: string, port: string): string {
    host + (if port != "" then ":" + port else "")
  }

  /** What a URL of that shape names, read back: user, password, host and port. */
  datatype Target = Target(user: string, password: string, host: string, port: string)

  function ParseScriptUrl(url: string): Option<Target> {
    if |url| < |Query.UrlHead| + |UrlTail| || url[..|Query.UrlHead|] != Query.UrlHead || url[|url| - |UrlTail|..] != UrlTail then None
    else ParseTarget(url[|Query.UrlHead|..|url| - |UrlTail|])
  }

  /** Host and port follow the last `@`; the password follows the first `:` before it. */
  function ParseTarget(middle: string): Option<Target> {
    match CutLast(middle, '@')
    case None => None
    case Some(parts) =>
      match CutFirst(parts.0, ':')
      case None => None
      case Some(creds) => Some(ParseHostPort(parts.1).(user := creds.0, password := creds.1))
  }

  /** The port follows the last `:`, if there is one. */
  function ParseHostPort(s: string): Target {
    match CutLast(s, ':')
    case None => Target("", "", s, "")
    case Some(hp) => Target("", "", hp.0, hp.1)
  }

  lemma HostPortRoundTrip(host: string, port: string)
    requires '@' !in host && '@' !in port && ':' !in port
    requires port == "" ==> ':' !in host
    ensures '@' !in HostPort(host, port)
    ensures ParseHostPort(HostPort(host, port)) == Target("", "", host, port)
  {
    if port != "" {
      assert HostPort(host, port) == host + [':'] + port;
      CutLastOf(host, ':', port);
    }
  }

  /**
   * The URL holds the user, password, host and port so that they can be
   * read back, as long as the user has no `:`, host and port have no `@`,
   * the port has no `:`, and, when no port is given, neither has the host.
   */
  lemma ScriptUrlRoundTrip(a: ScriptArgs)
    requires ':' !in a.user && '@' !in a.host && '@' !in a.port && ':' !in a.port
    requires a.port == "" ==> ':' !in a.host
    ensures ParseScriptUrl(ScriptUrl(a)) == Some(Target(a.user, a.password, a.host, a.port))
  {
    var middle := a.user + [':'] + a.password + ['@'] + HostPort(a.host, a.port);
    ScriptUrlFrame(a);
    Query.Frame(Query.UrlHead, middle, UrlTail);
    assert ParseScriptUrl(ScriptUrl(a)) == ParseTarget(middle);
    TargetRoundTrip(a);
  }

  lemma ScriptUrlFrame(a: ScriptArgs)
    ensures ScriptUrl(a) == Query.UrlHead + (a.user + [':'] + a.password + ['@'] + HostPort(a.host, a.port)) + UrlTail
  {
  }

  lemma TargetRoundTrip(a: ScriptArgs)
    requires ':' !in a.user && '@' !in a.host && '@' !in a.port && ':' !in a.port
    requires a.port == "" ==> ':' !in a.host
    ensures ParseTarget(a.user + [':'] + a.password + ['@'] + HostPort(a.host, a.port)) == Some(Target(a.user, a.password, a.host, a.port))
  {
    var creds := a.user + [':'] + a.password;
    var hp := HostPort(a.host, a.port);
    HostPortRoundTrip(a.host, a.port);
    CutLastOf(creds, '@', hp);
    CutFirstOf(a.user, ':', a.password);
  }

  // ---------------------------------------------------------------------
  // The trace action (query-locterms.py:81-98, 109-123)

  /**
   * The loop over the terms: a rule before each term's output; a parent
   * without a record ends the loop (`get_paths` raises `SystemExit`).
   */
  function ScriptTraceTerms(m: Store, ts: seq<string>, rank: map<string, nat>): Query.Printed
    requires KeysMatch(m) && Ranked(m, rank)
    decreases |ts|
  {
    if ts == [] then Query.Printed([], None)
    else if Query.TraceOne(m, ts[0], rank).raised.Some? then Query.Printed([Query.Plain(Query.Rule)], Query.TraceOne(m, ts[0], rank).raised)
    else Query.Prepend([Query.Plain(Query.Rule)] + Query.TraceOne(m, ts[0], rank).lines, ScriptTraceTerms(m, ts[1..], rank))
  }

  /**
   * The trace action: the loop, then the closing rule; or, at a missing
   * parent, the exit message `Broader term X not found.`, unstyled.
   */
  function ScriptTraceWork(m: Store, ts: seq<string>, rank: map<string, nat>): Query.Session
    requires KeysMatch(m) && Ranked(m, rank)
  {
    ScriptExits(ScriptTraceTerms(m, ts, rank))
  }

  function ScriptExits(p: Query.Printed): Query.Session {
    if p.raised.None? then Query.Session(p.lines + [Query.Plain(Query.Rule)], None)
    else Query.Session(p.lines, Some(Query.Plain(Query.BroaderMissing(p.raised.value))))
  }

  /** The lines that are not rules. */
  function NoRules(ls: seq<Query.Out>): (r: seq<Query.Out>)
    ensures |r| <= |ls|
  {
    if ls == [] then []
    else (if ls[0] == Query.Plain(Query.Rule) then [] else [ls[0]]) + NoRules(ls[1..])
  }

  lemma {:induction false} NoRulesConcat(a: seq<Query.Out>, b: seq<Query.Out>)
    ensures NoRules(a + b) == NoRules(a) + NoRules(b)
    decreases |a|
  {
    if a == [] {
      assert a + b == b;
    } else {
      assert (a + b)[0] == a[0] && (a + b)[1..] == a[1..] + b;
      NoRulesConcat(a[1..], b);
      var h := if a[0] == Query.Plain(Query.Rule) then [] else [a[0]];
      assert NoRules(a + b) == h + NoRules(a[1..] + b);
      assert NoRules(a) == h + NoRules(a[1..]);
    }
  }

  /** No line a trace prints is a rule: entries hold a colon, and the not-found message starts with a letter. */
  lemma TraceLinesAreNotRules(m: Store, t: string, rank: map<string, nat>)
    requires KeysMatch(m) && Ranked(m, rank)
    ensures NoRules(Query.TraceOne(m, t, rank).lines) == Query.TraceOne(m, t, rank).lines
  {
    var ls := Query.TraceOne(m, t, rank).lines;
    forall k | 0 <= k < |ls|
      ensures ls[k] != Query.Plain(Query.Rule)
    {
      if t !in m {
        assert ls[k].text[0] == 'C';
      } else {
        var ps := AllPaths(m, t, rank).value;
        TracedPathsAreRootChains(m, t, rank);
        NotRule(RenderAll(ps)[k]);
      }
    }
    NoRulesOfNone(ls);
  }

  lemma NotRule(l: Line)
    ensures LineText(l) != Query.Rule
  {
    match l
    case Blank =>
    case Entry(indent, id, shown) =>
      assert LineText(l)[|indent| + |id|] == ':';
  }

  lemma {:induction false} NoRulesOfNone(ls: seq<Query.Out>)
    requires forall k :: 0 <= k < |ls| ==> ls[k] != Query.Plain(Query.Rule)
    ensures NoRules(ls) == ls
    decreases |ls|
  {
    if ls != [] {
      NoRulesOfNone(ls[1..]);
    }
  }

  /** Dropping the rules from a rule, a term's lines and the rest keeps the term's lines and the rest without rules. */
  lemma StripRule(ls: seq<Query.Out>, rest: seq<Query.Out>)
    requires NoRules(ls) == ls
    ensures NoRules([Query.Plain(Query.Rule)] + ls + rest) == ls + NoRules(rest)
  {
    var rule := [Query.Plain(Query.Rule)];
    assert rule[0] == Query.Plain(Query.Rule) && rule[1..] == [];
    assert NoRules(rule) == [] + NoRules([]);
    NoRulesConcat(rule, ls);
    assert NoRules(rule + ls) == ls;
    NoRulesConcat(rule + ls, rest);
  }

  /**
   * Against the packaged front ends' trace: the script stops at the same
   * missing parent, and without its rules prints the same lines.
   */
  lemma {:induction false} ScriptTraceAgrees(m: Store, ts: seq<string>, rank: map<string, nat>)
    requires KeysMatch(m) && Ranked(m, rank)
    ensures ScriptTraceTerms(m, ts, rank).raised == Query.TraceTerms(m, ts, rank).raised
    ensures NoRules(ScriptTraceTerms(m, ts, rank).lines) == Query.TraceTerms(m, ts, rank).lines
    decreases |ts|
  {
    if ts != [] {
      var one := Query.TraceOne(m, ts[0], rank);
      if one.raised.None? {
        ScriptTraceAgrees(m, ts[1..], rank);
        TraceLinesAreNotRules(m, ts[0], rank);
        StripRule(one.lines, ScriptTraceTerms(m, ts[1..], rank).lines);
      } else {
        assert NoRules([Query.Plain(Query.Rule)]) == [];
      }
    }
  }

  /**
   * A run ends either with the closing rule, or, at a parent without a
   * record, with the message naming it; on a closed store it never exits.
   */
  lemma ScriptTraceEnds(m: Store, ts: seq<string>, rank: map<string, nat>)
    requires KeysMatch(m) && Ranked(m, rank)
    ensures ScriptTraceWork(m, ts, rank).exit.None? ==> ScriptTraceWork(m, ts, rank).lines[|ScriptTraceWork(m, ts, rank).lines| - 1] == Query.Plain(Query.Rule)
    ensures ScriptTraceWork(m, ts, rank).exit.Some? ==> exists b :: b !in m && ScriptTraceWork(m, ts, rank).exit == Some(Query.Plain(Query.BroaderMissing(b)))
    ensures Closed(m) ==> ScriptTraceWork(m, ts, rank).exit.None?
  {
    ScriptTraceAgrees(m, ts, rank);
    Query.TraceTermsRaise(m, ts, rank);
  }
}
