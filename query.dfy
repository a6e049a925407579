/**
 * What the two packaged query front ends share (dassie/query_dassie.py and
 * locterms/query_locterms.py, whose helpers are textually the same): the
 * flag-to-style mapping `color_codes`, `colorcode` and `msg`, the checks of
 * the command line, the database URL, and the output of the trace action.
 *
 * Terminal colouring (termcolor's `colored`) is an abstract value
 * `Colored(text, color, attrs)`; everything else a line holds is its text.
 */
module Query {
  import opened Wrappers
  import opened Text
  import opened Lcsh
  import opened Trace

  // ---------------------------------------------------------------------
  // color_codes

  /** The `flags` argument: `None`, one flag, or a list of flags. */
  datatype Flags = NoFlags | Flag(name: string) | FlagList(names: seq<string>)

  /** A flag that is not a list is looked for as the only element of one. */
  function FlagNames(f: Flags): seq<string> {
    match f
    case NoFlags => []
    case Flag(name) => [name]
    case FlagList(names) => names
  }

  /** What `color_codes` returns: a message prefix, a colour and text attributes. */
  datatype Codes = Codes(prefix: string, color: string, attrs: seq<string>)

  /**
   * The style a set of flags asks for, by priority: `warning` outranks
   * `error` for the prefix; the colour comes from the highest-ranked flag
   * of cyan, grey, blue, white, info, warning, error; the attributes are
   * those present among underline, bold, reverse, dark, in that order.
   */
  function CodesFor(f: Flags): Codes {
    var fs := FlagNames(f);
    Codes(PrefixFor(fs), ColorFor(fs), AttrsFor(fs))
  }

  function PrefixFor(fs: seq<string>): string {
    if "warning" in fs then "WARNING" else if "error" in fs then "ERROR" else ""
  }

  function ColorFor(fs: seq<string>): string {
    if "cyan" in fs then "cyan"
    else if "grey" in fs then "grey"
    else if "blue" in fs then "blue"
    else if "white" in fs then "white"
    else if "info" in fs then "green"
    else if "warning" in fs then "yellow"
    else if "error" in fs then "red"
    else ""
  }

  /** The attributes `color_codes` knows, in the order it appends them. */
  const AttrOrder: seq<string> := ["underline", "bold", "reverse", "dark"]

  function AttrsFor(fs: seq<string>): seq<string> {
    Present(AttrOrder, fs)
  }

  /** The elements of `order` that occur in `fs`, in the order of `order`. */
  function Present(order: seq<string>, fs: seq<string>): (r: seq<string>)
    ensures |r| <= |order|
  {
    if order == [] then []
    else (if order[0] in fs then [order[0]] else []) + Present(order[1..], fs)
  }

  /** `Present` keeps exactly the elements of `order` that occur in `fs`, and no duplicates of a duplicate-free `order`. */
  lemma {:induction false} PresentMembers(order: seq<string>, fs: seq<string>)
    ensures forall x :: x in Present(order, fs) <==> x in order && x in fs
    ensures NoDups(order) ==> NoDups(Present(order, fs))
    decreases |order|
  {
    if order != [] {
      PresentMembers(order[1..], fs);
    }
  }

  /**
   * `color_codes` (dassie/query_dassie.py:328-358): start from nothing and
   * let each flag test in turn overwrite the prefix and colour or append
   * an attribute.
   */
  method ColorCodes(flags: Flags) returns (c: Codes)
    ensures c == CodesFor(flags)
  {
    var fs := FlagNames(flags);
    var prefix, color := PrefixAndColor(fs);
    var attrib := Attributes(fs);
    c := Codes(prefix, color, attrib);
  }

  /** The tests of `color_codes` that overwrite the prefix and the colour. */
  method PrefixAndColor(fs: seq<string>) returns (prefix: string, color: string)
    ensures prefix == PrefixFor(fs) && color == ColorFor(fs)
  {
    prefix := "";
    color := "";
    if "error" in fs {
      prefix := "ERROR";
      color := "red";
    }
    if "warning" in fs {
      prefix := "WARNING";
      color := "yellow";
    }
    if "info" in fs {
      color := "green";
    }
    if "white" in fs {
      color := "white";
    }
    if "blue" in fs {
      color := "blue";
    }
    if "grey" in fs {
      color := "grey";
    }
    if "cyan" in fs {
      color := "cyan";
    }
  }

  /** The tests of `color_codes` that append an attribute. */
  method Attributes(fs: seq<string>) returns (attrib: seq<string>)
    ensures attrib == AttrsFor(fs)
  {
    attrib := [];
    if "underline" in fs {
      attrib := attrib + ["underline"];
    }
    if "bold" in fs {
      attrib := attrib + ["bold"];
    }
    if "reverse" in fs {
      attrib := attrib + ["reverse"];
    }
    if "dark" in fs {
      attrib := attrib + ["dark"];
    }
    AttrsUnrolled(fs);
  }

  lemma AttrsUnrolled(fs: seq<string>)
    ensures AttrsFor(fs) ==
      (if "underline" in fs then ["underline"] else []) + (if "bold" in fs then ["bold"] else [])
      + (if "reverse" in fs then ["reverse"] else []) + (if "dark" in fs then ["dark"] else [])
  {
    var o1: seq<string> := ["bold", "reverse", "dark"];
    var o2: seq<string> := ["reverse", "dark"];
    var o3: seq<string> := ["dark"];
    assert AttrOrder[0] == "underline" && AttrOrder[1..] == o1;
    assert o1[0] == "bold" && o1[1..] == o2;
    assert o2[0] == "reverse" && o2[1..] == o3;
    assert o3[0] == "dark" && o3[1..] == [];
    assert Present(o3, fs) == (if "dark" in fs then ["dark"] else []) + Present([], fs);
    assert Present(o2, fs) == (if "reverse" in fs then ["reverse"] else []) + Present(o3, fs);
    assert Present(o1, fs) == (if "bold" in fs then ["bold"] else []) + Present(o2, fs);
    assert Present(AttrOrder, fs) == (if "underline" in fs then ["underline"] else []) + Present(o1, fs);
  }

  /**
   * Only which flags occur matters, not their order or repetition: the
   * attributes always come out in the fixed order, and a warning flag
   * outranks an error flag.
   */
  lemma CodesIgnoreFlagOrder(fs: seq<string>, gs: seq<string>)
    requires forall x :: x in fs <==> x in gs
    ensures CodesFor(FlagList(fs)) == CodesFor(FlagList(gs))
  {
    AttrsUnrolled(fs);
    AttrsUnrolled(gs);
  }

  /** An error message is red and prefixed `ERROR`. */
  lemma ErrorCodes()
    ensures CodesFor(Flag("error")) == Codes("ERROR", "red", [])
  {
    var fs: seq<string> := ["error"];
    assert "error" in fs;
    assert "warning" !in fs && "cyan" !in fs && "grey" !in fs && "blue" !in fs && "white" !in fs && "info" !in fs;
    assert "underline" !in fs && "bold" !in fs && "reverse" !in fs && "dark" !in fs;
    AttrsUnrolled(fs);
  }

  /** A warning is yellow and prefixed `WARNING`. */
  lemma WarningCodes()
    ensures CodesFor(Flag("warning")) == Codes("WARNING", "yellow", [])
  {
    var fs: seq<string> := ["warning"];
    assert "warning" in fs;
    assert "error" !in fs && "cyan" !in fs && "grey" !in fs && "blue" !in fs && "white" !in fs && "info" !in fs;
    assert "underline" !in fs && "bold" !in fs && "reverse" !in fs && "dark" !in fs;
    AttrsUnrolled(fs);
  }

  /** The rule is dark, without prefix or colour. */
  lemma DarkCodes()
    ensures CodesFor(Flag("dark")) == Codes("", "", ["dark"])
  {
    var fs: seq<string> := ["dark"];
    assert "dark"[0] == 'd';
    assert "warning" !in fs && "error" !in fs;
    assert "cyan" !in fs && "grey" !in fs && "blue" !in fs && "white" !in fs && "info" !in fs;
    assert "underline" !in fs && "bold" !in fs && "reverse" !in fs && "dark" in fs;
    AttrsUnrolled(fs);
  }

  /** `warning` wins over `error` for the prefix and, absent a colour flag, for the colour. */
  lemma WarningBeatsError(fs: seq<string>)
    requires "warning" in fs && "error" in fs
    ensures CodesFor(FlagList(fs)).prefix == "WARNING"
    ensures (forall x :: x in fs ==> x !in ["cyan", "grey", "blue", "white", "info"]) ==> CodesFor(FlagList(fs)).color == "yellow"
  {
  }

  /** The attributes are distinct, known, and exactly the attribute flags given. */
  lemma AttrsAreKnownFlags(fs: seq<string>)
    ensures NoDups(AttrsFor(fs))
    ensures forall x :: x in AttrsFor(fs) <==> x in AttrOrder && x in fs
  {
    PresentMembers(AttrOrder, fs);
  }

  // ---------------------------------------------------------------------
  // colorcode and msg

  /** A printed line: plain text, or text that termcolor styles. */
  datatype Out = Plain(text: string) | Colored(text: string, color: string, attrs: seq<string>)

  /**
   * `colorcode` (dassie/query_dassie.py:311-325): with colour, style the
   * text with the colour and attributes the flags ask for; without, prefix
   * it with the flags' prefix and a colon, if there is a prefix.
   */
  function ColorCode(text: string, flags: Flags, colorize: bool): (r: Out)
    ensures !colorize ==> r == Plain(if CodesFor(flags).prefix != "" then CodesFor(flags).prefix + ": " + text else text)
    ensures colorize ==> r.text == text
    ensures colorize ==> (r.Colored? <==> CodesFor(flags).color != "" || CodesFor(flags).attrs != [])
    ensures r.Colored? ==> r.color == CodesFor(flags).color && r.attrs == CodesFor(flags).attrs
  {
    var c := CodesFor(flags);
    if colorize then
      if c.attrs != [] && c.color != "" then Colored(text, c.color, c.attrs)
      else if c.color != "" then Colored(text, c.color, [])
      else if c.attrs != [] then Colored(text, "", c.attrs)
      else Plain(text)
    else if c.prefix != "" then Plain(c.prefix + ": " + text)
    else Plain(text)
  }

  /** Without colour an error message reads `ERROR: ...`, a warning `WARNING: ...`. */
  lemma PlainPrefixes(text: string, fs: seq<string>)
    ensures "warning" in fs ==> ColorCode(text, FlagList(fs), false) == Plain("WARNING: " + text)
    ensures "error" in fs && "warning" !in fs ==> ColorCode(text, FlagList(fs), false) == Plain("ERROR: " + text)
    ensures "error" !in fs && "warning" !in fs ==> ColorCode(text, FlagList(fs), false) == Plain(text)
  {
  }

  /** With colour an error message is red text; without, it reads `ERROR: ...`. */
  lemma ErrorStyles(text: string)
    ensures ColorCode(text, Flag("error"), true) == Colored(text, "red", [])
    ensures ColorCode(text, Flag("error"), false) == Plain("ERROR: " + text)
  {
    ErrorCodes();
    var c := CodesFor(Flag("error"));
    assert c.prefix == "ERROR" && c.color == "red" && c.attrs == [];
    assert c.prefix + ": " == "ERROR: ";
  }

  /**
   * `msg` (dassie/query_dassie.py:304-308): with colour the text goes
   * through `colorcode`; without, it is printed as it is, prefix-free.
   */
  function Msg(text: string, flags: Flags, colorize: bool): (r: Out)
    ensures !colorize ==> r == Plain(text)
    ensures colorize ==> r == ColorCode(text, flags, true)
  {
    if colorize then ColorCode(text, flags, true) else Plain(text)
  }

  /**
   * `msg` with no flags prints its text unchanged either way, so wrapping an
   * already styled message in `msg` adds nothing.
   */
  lemma MsgWithoutFlags(text: string, colorize: bool)
    ensures Msg(text, NoFlags, colorize) == Plain(text)
  {
  }

  // ---------------------------------------------------------------------
  // Command-line checks (dassie/query_dassie.py:114-141)

  /** The actions and identifiers given on the command line. */
  datatype Args = Args(describe: bool, find: bool, trace: bool, summarize: bool, ids: seq<string>)

  /**
   * How `main` ends its checks: exit with a message, return after printing
   * one, stop on an exception nobody catches (named by its Python class),
   * or go on.
   */
  datatype Decision = Exit(message: Out) | Return(message: Out) | Crash(error: string) | Proceed

  function Ones(a: Args): nat {
    (if a.describe then 1 else 0) + (if a.trace then 1 else 0) + (if a.summarize then 1 else 0)
  }

  /** Every identifier is an LCSH subject identifier: it starts with `sh`. */
  predicate AllSubjectIds(ids: seq<string>) {
    forall k :: 0 <= k < |ids| ==> StartsWith(ids[k], "sh")
  }

  /**
   * The checks of `main` in order. The exit messages go through `colorcode`
   * with its default (colour on). `portIsInt` is whether Python's `int`
   * accepts the port string: when it does not, `int(port)` raises a
   * `ValueError` before the probe; `occupied` is what the probe says.
   */
  function CheckArgs(a: Args, port: string, portIsInt: bool, occupied: bool, colorize: bool): Decision {
    if Ones(a) > 1 then Exit(ColorCode("Can only perform one action at a time.", Flag("error"), true))
    else if !(a.describe || a.find || a.trace || a.summarize) then
      Exit(ColorCode("No action specified. (Use -h for help.)", Flag("warning"), true))
    else if !a.find && !a.summarize && a.ids == [] then
      Exit(ColorCode("Need LCSH identifiers. (Use -h for help.)", Flag("error"), true))
    else if !a.find && !AllSubjectIds(a.ids) then
      Return(Msg("Identifiers must be LCSH identifiers, like sh89003287", Flag("error"), colorize))
    else if !portIsInt then Crash("ValueError")
    else if !occupied then
      Return(Msg("Cannot connect to port " + port + " -- is the database running?", Flag("error"), colorize))
    else Proceed
  }

  /**
   * The checks let the program go on exactly when at most one of
   * describe, trace and summarize is set (find does not count), some action
   * is set, identifiers are given unless find or summarize is set, every
   * identifier starts with `sh` unless find is set, the port is a number
   * and the port answers. Too many actions exit with a red error, no action
   * with a yellow warning, missing identifiers with a red error; a port
   * that is not a number raises `ValueError` once the other checks pass.
   */
  lemma CheckArgsProceeds(a: Args, port: string, portIsInt: bool, occupied: bool, colorize: bool)
    ensures CheckArgs(a, port, portIsInt, occupied, colorize) == Proceed <==>
      && Ones(a) <= 1
      && (a.describe || a.find || a.trace || a.summarize)
      && (a.find || a.summarize || a.ids != [])
      && (a.find || AllSubjectIds(a.ids))
      && portIsInt
      && occupied
    ensures CheckArgs(a, port, portIsInt, occupied, colorize).Exit? <==>
      Ones(a) > 1 || !(a.describe || a.find || a.trace || a.summarize) || (!a.find && !a.summarize && a.ids == [])
    ensures CheckArgs(a, port, portIsInt, occupied, colorize).Crash? <==>
      !CheckArgs(a, port, portIsInt, occupied, colorize).Exit? && (a.find || AllSubjectIds(a.ids)) && !portIsInt
    ensures Ones(a) > 1 ==> CheckArgs(a, port, portIsInt, occupied, colorize) == Exit(Colored("Can only perform one action at a time.", "red", []))
    ensures !(a.describe || a.find || a.trace || a.summarize) ==>
      CheckArgs(a, port, portIsInt, occupied, colorize) == Exit(Colored("No action specified. (Use -h for help.)", "yellow", []))
    ensures Ones(a) == 1 && !a.find && !a.summarize && a.ids == [] ==>
      CheckArgs(a, port, portIsInt, occupied, colorize) == Exit(Colored("Need LCSH identifiers. (Use -h for help.)", "red", []))
    ensures a.find && !a.describe && !a.trace && !a.summarize && portIsInt && occupied ==> CheckArgs(a, port, portIsInt, occupied, colorize) == Proceed
  {
    if Ones(a) > 1 {
      ErrorStyles("Can only perform one action at a time.");
    } else if !(a.describe || a.find || a.trace || a.summarize) {
      WarningCodes();
    } else if Ones(a) == 1 && !a.find && !a.summarize && a.ids == [] {
      ErrorStyles("Need LCSH identifiers. (Use -h for help.)");
    }
  }

  /**
   * The locterms front end (locterms/query_locterms.py:101-124) has no find
   * action and otherwise makes the same checks with the same messages.
   */
  function CheckLocTermsArgs(describe: bool, trace: bool, summarize: bool, ids: seq<string>, port: string, portIsInt: bool, occupied: bool, colorize: bool): Decision {
    CheckArgs(Args(describe, false, trace, summarize, ids), port, portIsInt, occupied, colorize)
  }

  /**
   * Without find, identifiers are required unless summarize is set, and
   * every identifier given is checked.
   */
  lemma LocTermsChecks(describe: bool, trace: bool, summarize: bool, ids: seq<string>, port: string, portIsInt: bool, occupied: bool, colorize: bool)
    ensures CheckLocTermsArgs(describe, trace, summarize, ids, port, portIsInt, occupied, colorize) == Proceed <==>
      && Ones(Args(describe, false, trace, summarize, ids)) == 1
      && (summarize || ids != [])
      && AllSubjectIds(ids)
      && portIsInt
      && occupied
    ensures !describe && !trace && !summarize ==>
      CheckLocTermsArgs(describe, trace, summarize, ids, port, portIsInt, occupied, colorize) == Exit(Colored("No action specified. (Use -h for help.)", "yellow", []))
  {
    if !describe && !trace && !summarize {
      WarningCodes();
    }
  }

  // ---------------------------------------------------------------------
  // The database URL (dassie/query_dassie.py:144-149)

  const DbName: string := "lcsh-db"

  const UrlHead: string := "mongodb://"

  const UrlTail: string := "/" + DbName + "?authSource=admin"

  /** The connection fields; an absent (falsy) field is the empty string. */
  datatype Login = Login(user: string, pswd: string, host: string, port: string)

  /** `'mongodb://' [user] [':' pswd] '@' host ':' port '/lcsh-db?authSource=admin'`. */
  function MongoUrl(l: Login): string {
    UrlHead + Credentials(l) + "@" + l.host + ":" + l.port + UrlTail
  }

  /** The user name, then a colon and the password if there is one. */
  function Credentials(l: Login): string {
    l.user + (if l.pswd != "" then ":" + l.pswd else "")
  }

  /** Read the fields back from a URL of that shape. */
  function ParseUrl(url: string): Option<Login> {
    if |url| < |UrlHead| + |UrlTail| || url[..|UrlHead|] != UrlHead || url[|url| - |UrlTail|..] != UrlTail then None
    else ParseMiddle(url[|UrlHead|..|url| - |UrlTail|])
  }

  /** Host and port follow the last `@`, the port the last `:` after it; the password follows the first `:` before it. */
  function ParseMiddle(middle: string): Option<Login> {
    match CutLast(middle, '@')
    case None => None
    case Some(parts) =>
      match CutLast(parts.1, ':')
      case None => None
      case Some(hostPort) => Some(ParseCredentials(parts.0).(host := hostPort.0, port := hostPort.1))
  }

  /** The user name up to the first `:`, and the password after it, if any. */
  function ParseCredentials(creds: string): Login {
    match CutFirst(creds, ':')
    case None => Login(creds, "", "", "")
    case Some(userPswd) => Login(userPswd.0, userPswd.1, "", "")
  }

  /** A URL splits back into a head, a middle and a tail. */
  lemma Frame(head: string, middle: string, tail: string)
    ensures var s := head + middle + tail;
      && |s| >= |head| + |tail| && s[..|head|] == head && s[|s| - |tail|..] == tail
      && s[|head|..|s| - |tail|] == middle
  {
  }

  /** A user name without `:` is read back with its password. */
  lemma CredentialsRoundTrip(l: Login)
    requires ':' !in l.user
    ensures ParseCredentials(Credentials(l)) == l.(host := "", port := "")
  {
    if l.pswd != "" {
      assert Credentials(l) == l.user + [':'] + l.pswd;
      CutFirstOf(l.user, ':', l.pswd);
    }
  }

  /**
   * The URL holds every field so that it can be read back, as long as the
   * user name has no `:` and neither host nor port has an `@`, nor the
   * port a `:`; the password may hold anything.
   */
  lemma UrlRoundTrip(l: Login)
    requires ':' !in l.user && '@' !in l.host && '@' !in l.port && ':' !in l.port
    ensures ParseUrl(MongoUrl(l)) == Some(l)
  {
    var middle := Credentials(l) + "@" + (l.host + ":" + l.port);
    MongoUrlFrame(l);
    Frame(UrlHead, middle, UrlTail);
    assert ParseUrl(MongoUrl(l)) == ParseMiddle(middle);
    MiddleRoundTrip(l);
  }

  lemma MongoUrlFrame(l: Login)
    ensures MongoUrl(l) == UrlHead + (Credentials(l) + "@" + (l.host + ":" + l.port)) + UrlTail
  {
  }

  lemma MiddleRoundTrip(l: Login)
    requires ':' !in l.user && '@' !in l.host && '@' !in l.port && ':' !in l.port
    ensures ParseMiddle(Credentials(l) + "@" + (l.host + ":" + l.port)) == Some(l)
  {
    var hostPort := l.host + ":" + l.port;
    assert '@' !in hostPort;
    CutLastOf(Credentials(l), '@', hostPort);
    CutLastOf(l.host, ':', l.port);
    CredentialsRoundTrip(l);
  }

  // ---------------------------------------------------------------------
  // The trace action (dassie/query_dassie.py:162-187)

  /** The line `'=' * 70` that opens and closes the work section. */
  const Rule: string := Chars('=', 70)

  /** The text of the name error that a missing parent ends in. */
  const NameErrorText: string := "name 'colorize' is not defined"

  /** What a stretch of work printed, and the missing parent it stopped at, if any. */
  datatype Printed = Printed(lines: seq<Out>, raised: Option<string>)

  /** Uncoloured rendered lines. */
  function PlainLines(ls: seq<Line>): (r: seq<Out>)
    ensures |r| == |ls| && forall k :: 0 <= k < |ls| ==> r[k] == Plain(LineText(ls[k]))
  {
    if ls == [] then [] else [Plain(LineText(ls[0]))] + PlainLines(ls[1..])
  }

  /**
   * `trace_term` without colour: a term without a record is reported and
   * skipped; otherwise its paths are printed, unless tracing them stops at
   * a parent without a record.
   */
  function TraceOne(m: Store, t: string, rank: map<string, nat>): (r: Printed)
    requires KeysMatch(m) && Ranked(m, rank)
    ensures t !in m ==> r == Printed([Plain("Could not find " + t + " in the database")], None)
    ensures t in m ==> (r.raised.None? <==> AllPaths(m, t, rank).Ok?)
    ensures r.raised.Some? ==> r.lines == [] && r.raised.value !in m
  {
    if t !in m then Printed([Msg("Could not find " + t + " in the database", Flag("error"), false)], None)
    else
      TraceFailsOnlyOnMissing(m, t, rank);
      if AllPaths(m, t, rank).Err? then Printed([], Some(AllPaths(m, t, rank).error))
      else
        TracedPathsAreRootChains(m, t, rank);
        Printed(PlainLines(RenderAll(AllPaths(m, t, rank).value)), None)
  }

  /** The loop over the identifiers: each term's output in order, up to the first that raises. */
  function TraceTerms(m: Store, ts: seq<string>, rank: map<string, nat>): (r: Printed)
    requires KeysMatch(m) && Ranked(m, rank)
    decreases |ts|
  {
    if ts == [] then Printed([], None)
    else if TraceOne(m, ts[0], rank).raised.Some? then TraceOne(m, ts[0], rank)
    else Prepend(TraceOne(m, ts[0], rank).lines, TraceTerms(m, ts[1..], rank))
  }

  /** Lines printed before a stretch of work. */
  function Prepend(ls: seq<Out>, p: Printed): Printed {
    Printed(ls + p.lines, p.raised)
  }

  /**
   * The work section of `main` for the trace action, as written: the
   * opening rule, the traces, and the closing rule. A missing parent makes
   * `get_paths` evaluate the name `colorize`, which is local to `main`; the
   * resulting `NameError` is caught and printed in red (the handler's
   * `colorcode` colours by default, and `msg` without flags prints that
   * text unchanged) and the closing rule is not printed.
   */
  function TraceWorkAsWritten(m: Store, ts: seq<string>, rank: map<string, nat>): seq<Out>
    requires KeysMatch(m) && Ranked(m, rank)
  {
    Framed(TraceTerms(m, ts, rank))
  }

  /** The opening rule, the printed lines, and the closing rule or the red name error. */
  function Framed(p: Printed): seq<Out>
  {
    [Msg(Rule, Flag("dark"), false)] + p.lines
      + [if p.raised.None? then Msg(Rule, Flag("dark"), false) else ColorCode(NameErrorText, Flag("error"), true)]
  }

  /** What a run prints, and the message it exits with, if it exits. */
  datatype Session = Session(lines: seq<Out>, exit: Option<Out>)

  /**
   * The trace action as intended: a missing parent ends the program with
   * `Broader term X not found.`, styled by `colorcode` under the caller's
   * colour setting (here none).
   */
  function TraceWork(m: Store, ts: seq<string>, rank: map<string, nat>): Session
    requires KeysMatch(m) && Ranked(m, rank)
  {
    Exits(TraceTerms(m, ts, rank))
  }

  /** The opening rule and the printed lines, then the closing rule or the exit naming the missing parent. */
  function Exits(p: Printed): Session
  {
    if p.raised.None? then Session([Plain(Rule)] + p.lines + [Plain(Rule)], None)
    else Session([Plain(Rule)] + p.lines, Some(ColorCode(BroaderMissing(p.raised.value), Flag("error"), false)))
  }

  /** The message that names a missing parent. */
  function BroaderMissing(b: string): string {
    "Broader term " + b + " not found."
  }

  /** The traces stop only at a parent without a record, and never on a closed store. */
  lemma {:induction false} TraceTermsRaise(m: Store, ts: seq<string>, rank: map<string, nat>)
    requires KeysMatch(m) && Ranked(m, rank)
    ensures TraceTerms(m, ts, rank).raised.Some? ==> TraceTerms(m, ts, rank).raised.value !in m
    ensures Closed(m) ==> TraceTerms(m, ts, rank).raised.None?
    decreases |ts|
  {
    if ts != [] {
      if ts[0] in m {
        TraceFailsOnlyOnMissing(m, ts[0], rank);
      }
      TraceTermsRaise(m, ts[1..], rank);
    }
  }

  /**
   * As written, a missing parent is never named: the last line is the red
   * name-error text and the closing rule is missing. As intended, the
   * program exits naming the parent, which has no record.
   */
  lemma MissingParentOutput(m: Store, ts: seq<string>, rank: map<string, nat>)
    requires KeysMatch(m) && Ranked(m, rank)
    requires TraceTerms(m, ts, rank).raised.Some?
    ensures var out := TraceWorkAsWritten(m, ts, rank);
      out[|out| - 1] == Colored(NameErrorText, "red", []) && Plain(Rule) != out[|out| - 1]
    ensures var b := TraceTerms(m, ts, rank).raised.value;
      && b !in m
      && TraceWork(m, ts, rank).exit == Some(Plain("ERROR: " + BroaderMissing(b)))
  {
    TraceTermsRaise(m, ts, rank);
    ErrorStyles(NameErrorText);
    ErrorStyles(BroaderMissing(TraceTerms(m, ts, rank).raised.value));
  }

  /** On a closed store both versions print the same: the rules around every term's output. */
  lemma ClosedStoresAgree(m: Store, ts: seq<string>, rank: map<string, nat>)
    requires KeysMatch(m) && Ranked(m, rank) && Closed(m)
    ensures TraceWork(m, ts, rank) == Session(TraceWorkAsWritten(m, ts, rank), None)
    ensures var out := TraceWorkAsWritten(m, ts, rank);
      out == [Plain(Rule)] + TraceTerms(m, ts, rank).lines + [Plain(Rule)]
  {
    TraceTermsRaise(m, ts, rank);
  }

  /** A store whose only term names a parent that has no record. */
  const Orphan: Store := map["sh1" := NewTerm("sh1", "Cats").(broader := ["sh2"])]

  lemma OrphanTraced()
    ensures Ranked(Orphan, map["sh1" := 0]) && TraceTerms(Orphan, ["sh1"], map["sh1" := 0]) == Printed([], Some("sh2"))
  {
    var rank := map["sh1" := 0];
    assert AllPaths(Orphan, "sh1", rank) == Err("sh2") by {
      assert Orphan["sh1"].broader == ["sh2"];
      assert "sh2" !in Orphan;
    }
    assert TraceOne(Orphan, "sh1", rank) == Printed([], Some("sh2"));
  }

  /** The concrete case: tracing `sh1` prints the opening rule and the name error, and nothing about `sh2`. */
  lemma OrphanTrace()
    ensures TraceWorkAsWritten(Orphan, ["sh1"], map["sh1" := 0]) == [Plain(Rule), Colored(NameErrorText, "red", [])]
    ensures TraceWork(Orphan, ["sh1"], map["sh1" := 0]) == Session([Plain(Rule)], Some(Plain("ERROR: " + BroaderMissing("sh2"))))
  {
    OrphanTraced();
    FramedOrphan();
    ExitsOrphan();
  }

  lemma FramedOrphan()
    ensures Framed(Printed([], Some("sh2"))) == [Plain(Rule), Colored(NameErrorText, "red", [])]
  {
    ErrorStyles(NameErrorText);
    assert Msg(Rule, Flag("dark"), false) == Plain(Rule);
  }

  lemma ExitsOrphan()
    ensures Exits(Printed([], Some("sh2"))) == Session([Plain(Rule)], Some(Plain("ERROR: " + BroaderMissing("sh2"))))
  {
    ErrorStyles(BroaderMissing("sh2"));
  }
}
