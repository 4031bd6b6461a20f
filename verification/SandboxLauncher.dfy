/** The argument protocol of the sandbox launcher: its parser, the command line
    the sandbox manager writes for it, and the grammar both follow. */
module SandboxLauncher {
  import opened Names
  import opened Sequences

  datatype Flag = PolicyCwd | Policy | Seccomp | Limits

  function FlagName(f: Flag): string {
    match f
    case PolicyCwd => "--sandbox-policy-cwd"
    case Policy => "--sandbox-policy"
    case Seccomp => "--seccomp-profile"
    case Limits => "--resource-limits"
  }

  function FlagOf(name: string): Option<Flag> {
    if name == "--sandbox-policy-cwd" then Some(PolicyCwd)
    else if name == "--sandbox-policy" then Some(Policy)
    else if name == "--seccomp-profile" then Some(Seccomp)
    else if name == "--resource-limits" then Some(Limits)
    else None
  }

  /** The parsed invocation. */
  datatype Protocol = Protocol(
    policyCwd: string,
    policyJson: string,
    seccompJson: Option<string>,
    limitsJson: string,
    command: seq<string>)

  datatype Error =
    | UnexpectedToken(token: string)
    | UnknownFlag(name: string)
    | MissingValue(name: string)
    | NoCommand
    | MissingFlag(flag: Flag)

  datatype Parsed = Ok(protocol: Protocol) | Err(error: Error)

  // ---------- The grammar ----------

  /** One flag with its value, in the same token or in the next. */
  datatype Setting = Setting(flag: Flag, value: string, inlined: bool)

  function PrintSetting(s: Setting): seq<string> {
    if s.inlined then [FlagName(s.flag) + "=" + s.value] else [FlagName(s.flag), s.value]
  }

  function PrintAll(settings: seq<Setting>): seq<string> {
    if settings == [] then [] else PrintSetting(settings[0]) + PrintAll(settings[1..])
  }

  function PrintInvocation(settings: seq<Setting>, command: seq<string>): seq<string> {
    PrintAll(settings) + (["--"] + command)
  }

  /** The value the last setting of a flag gives it. */
  function LastValue(settings: seq<Setting>, f: Flag): Option<string> {
    if settings == [] then None
    else
      var later := LastValue(settings[1..], f);
      if later.None? && settings[0].flag == f then Some(settings[0].value) else later
  }

  /** The settings give every flag that is not optional. */
  predicate Complete(settings: seq<Setting>) {
    && LastValue(settings, PolicyCwd).Some?
    && LastValue(settings, Policy).Some?
    && LastValue(settings, Limits).Some?
  }

  function ProtocolOf(settings: seq<Setting>, command: seq<string>): Protocol
    requires Complete(settings)
  {
    Protocol(LastValue(settings, PolicyCwd).value, LastValue(settings, Policy).value,
             LastValue(settings, Seccomp), LastValue(settings, Limits).value, command)
  }

  // ---------- Reading tokens ----------

  /** The text before the first `=`, and what follows it if there is one. */
  function SplitOnce(text: string): (string, Option<string>) {
    var cut := First(text, IsEquals, 0);
    if cut < |text| then (text[..cut], Some(text[cut + 1..])) else (text, None)
  }

  predicate IsEquals(c: char) { c == '=' }

  predicate Dashed(text: string) {
    |text| >= 2 && text[0] == '-' && text[1] == '-'
  }

  datatype Stop = Separator(command: seq<string>) | End | Bad(error: Error)

  /** The settings at the front of the tokens, and why reading stopped. */
  datatype Reading = Reading(settings: seq<Setting>, stop: Stop)

  function Prepend(settings: seq<Setting>, r: Reading): Reading {
    Reading(settings + r.settings, r.stop)
  }

  lemma PrependTwice(a: seq<Setting>, b: seq<Setting>, r: Reading)
    ensures Prepend(a, Prepend(b, r)) == Prepend(a + b, r)
    ensures Prepend([], r) == r
  {
    assert a + (b + r.settings) == (a + b) + r.settings;
  }

  /** What the front tokens say: a setting that takes up `n` tokens, or a stop. */
  datatype Front = Take(s: Setting, n: nat) | Halt(stop: Stop)

  function FrontOf(args: seq<string>): (f: Front)
    ensures f.Take? ==> 0 < f.n <= |args|
  {
    if args == [] then Halt(End)
    else if args[0] == "--" then Halt(Separator(args[1..]))
    else if !Dashed(args[0]) then Halt(Bad(UnexpectedToken(args[0])))
    else
      var (name, inlineValue) := SplitOnce(args[0]);
      var flag := FlagOf(name);
      if flag.None? then Halt(Bad(UnknownFlag(name)))
      else if inlineValue.Some? then Take(Setting(flag.value, inlineValue.value, true), 1)
      else if |args| == 1 then Halt(Bad(MissingValue(name)))
      else Take(Setting(flag.value, args[1], false), 2)
  }

  function Read(args: seq<string>): Reading {
    var f := FrontOf(args);
    if f.Halt? then Reading([], f.stop) else Prepend([f.s], Read(args[f.n..]))
  }

  /** What the parser makes of a reading. */
  function Assemble(r: Reading): Parsed {
    if r.stop.Bad? then Err(r.stop.error)
    else if r.stop.End? || r.stop.command == [] then Err(NoCommand)
    else if LastValue(r.settings, PolicyCwd).None? then Err(MissingFlag(PolicyCwd))
    else if LastValue(r.settings, Policy).None? then Err(MissingFlag(Policy))
    else if LastValue(r.settings, Limits).None? then Err(MissingFlag(Limits))
    else Ok(ProtocolOf(r.settings, r.stop.command))
  }

  // ---------- Flag names ----------

  lemma FlagNames(f: Flag)
    ensures FlagOf(FlagName(f)) == Some(f)
    ensures Dashed(FlagName(f)) && |FlagName(f)| > 2
    ensures forall k :: 0 <= k < |FlagName(f)| ==> FlagName(f)[k] != '='
  {
    match f
    case PolicyCwd =>
    case Policy =>
    case Seccomp => assert FlagName(f)[2] == 's' && FlagName(f)[3] == 'e';
    case Limits =>
  }

  lemma FlagNamesOnly(name: string)
    requires FlagOf(name).Some?
    ensures FlagName(FlagOf(name).value) == name
  {
  }

  /** Flag names hold no `=`, so a value may hold any. */
  lemma SplitPrinted(name: string, value: string)
    requires forall k :: 0 <= k < |name| ==> name[k] != '='
    ensures SplitOnce(name + "=" + value) == (name, Some(value))
    ensures SplitOnce(name) == (name, None)
  {
    var text := name + "=" + value;
    FirstIs(text, IsEquals, 0, |name|);
    FirstIs(name, IsEquals, 0, |name|);
    assert text[..|name|] == name && text[|name| + 1..] == value;
  }

  // ---------- Reading what was printed ----------

  lemma ReadSetting(s: Setting, rest: seq<string>)
    ensures Read(PrintSetting(s) + rest) == Prepend([s], Read(rest))
  {
    var name := FlagName(s.flag);
    var args := PrintSetting(s) + rest;
    FlagNames(s.flag);
    SplitPrinted(name, s.value);
    if s.inlined {
      var token := name + "=" + s.value;
      assert args[0] == token && args[1..] == rest;
      assert Dashed(token) && |token| > 2;
      assert FrontOf(args) == Take(s, 1);
    } else {
      assert args[0] == name && args[1] == s.value && args[2..] == rest;
      assert FrontOf(args) == Take(s, 2);
    }
  }

  lemma Assoc(a: seq<string>, b: seq<string>, c: seq<string>)
    ensures (a + b) + c == a + (b + c)
    ensures [] + c == c && c + [] == c
  {
  }

  lemma ReadOneMore(s: Setting, more: seq<Setting>, tokens: seq<string>, end: Reading)
    requires Read(tokens) == Prepend(more, end)
    ensures Read(PrintSetting(s) + tokens) == Prepend([s] + more, end)
  {
    ReadSetting(s, tokens);
    PrependTwice([s], more, end);
  }

  lemma PrintFirst(settings: seq<Setting>, rest: seq<string>)
    requires settings != []
    ensures PrintAll(settings) + rest == PrintSetting(settings[0]) + (PrintAll(settings[1..]) + rest)
    ensures settings == [settings[0]] + settings[1..]
  {
    Assoc(PrintSetting(settings[0]), PrintAll(settings[1..]), rest);
  }

  lemma {:induction false} ReadPrinted(settings: seq<Setting>, rest: seq<string>)
    ensures Read(PrintAll(settings) + rest) == Prepend(settings, Read(rest))
  {
    if settings == [] {
      Assoc([], [], rest);
      PrependTwice([], [], Read(rest));
    } else {
      PrintFirst(settings, rest);
      ReadPrinted(settings[1..], rest);
      ReadOneMore(settings[0], settings[1..], PrintAll(settings[1..]) + rest, Read(rest));
    }
  }

  /** `rest` is where reading stops, and for the reason `stop`. */
  predicate StopsAt(stop: Stop, rest: seq<string>) {
    match stop
    case Separator(command) => rest == ["--"] + command
    case End => rest == []
    case Bad(UnexpectedToken(token)) => rest != [] && rest[0] == token && !Dashed(token)
    case Bad(UnknownFlag(name)) =>
      rest != [] && Dashed(rest[0]) && rest[0] != "--" && SplitOnce(rest[0]).0 == name && FlagOf(name).None?
    case Bad(MissingValue(name)) => rest == [name] && FlagOf(name).Some?
    case Bad(_) => false
  }

  lemma ReadStop(stop: Stop, rest: seq<string>)
    ensures StopsAt(stop, rest) <==> FrontOf(rest) == Halt(stop)
  {
    match stop {
      case Separator(command) =>
        assert (["--"] + command)[1..] == command;
        if rest != [] { assert rest == [rest[0]] + rest[1..]; }
      case Bad(MissingValue(name)) =>
        if FlagOf(name).Some? {
          FlagNamesOnly(name);
          FlagNames(FlagOf(name).value);
          SplitPrinted(name, "");
        }
      case _ =>
    }
  }

  lemma {:induction false} ReadingExplained(args: seq<string>)
    returns (rest: seq<string>)
    ensures args == PrintAll(Read(args).settings) + rest && StopsAt(Read(args).stop, rest)
  {
    var f := FrontOf(args);
    if f.Halt? {
      rest := args;
      Assoc([], [], args);
      ReadStop(f.stop, rest);
    } else {
      var more := args[f.n..];
      rest := ReadingExplained(more);
      TakenPrintsBack(args);
      ConsPrints(f.s, Read(more).settings);
      Assoc(PrintSetting(f.s), PrintAll(Read(more).settings), rest);
    }
  }

  lemma ConsPrints(s: Setting, settings: seq<Setting>)
    ensures PrintAll([s] + settings) == PrintSetting(s) + PrintAll(settings)
  {
    assert ([s] + settings)[1..] == settings;
  }

  lemma TakenPrintsBack(args: seq<string>)
    requires FrontOf(args).Take?
    ensures var f := FrontOf(args);
            args == PrintSetting(f.s) + args[f.n..]
  {
    FlagNamesOnly(SplitOnce(args[0]).0);
    var cut := First(args[0], IsEquals, 0);
    FirstMeaning(args[0], IsEquals, 0);
    if cut < |args[0]| {
      assert args[0] == args[0][..cut] + "=" + args[0][cut + 1..];
    }
  }

  /** Reading stops with given settings and reason exactly when the tokens are
      those settings, printed, up to a place that gives that reason. */
  lemma ReadsExactly(args: seq<string>, settings: seq<Setting>, stop: Stop)
    ensures Read(args) == Reading(settings, stop) <==>
            exists rest :: args == PrintAll(settings) + rest && StopsAt(stop, rest)
  {
    if Read(args) == Reading(settings, stop) {
      var rest := ReadingExplained(args);
    }
    if rest :| args == PrintAll(settings) + rest && StopsAt(stop, rest) {
      ReadPrinted(settings, rest);
      ReadStop(stop, rest);
    }
  }

  // ---------- The parser ----------

  lemma {:induction false} LastValueSnoc(settings: seq<Setting>, s: Setting, f: Flag)
    ensures LastValue(settings + [s], f) == if s.flag == f then Some(s.value) else LastValue(settings, f)
  {
    if settings == [] {
      assert ([] + [s])[1..] == [];
    } else {
      assert (settings + [s])[1..] == settings[1..] + [s];
      LastValueSnoc(settings[1..], s, f);
    }
  }

  /** A flag's value is that of its last setting. */
  lemma {:induction false} LastValueMeaning(settings: seq<Setting>, f: Flag, value: string)
    ensures LastValue(settings, f) == Some(value) <==>
            exists i :: 0 <= i < |settings| && settings[i].flag == f && settings[i].value == value &&
                        forall j :: i < j < |settings| ==> settings[j].flag != f
    ensures LastValue(settings, f).None? <==> forall i :: 0 <= i < |settings| ==> settings[i].flag != f
  {
    if settings != [] {
      var n := |settings| - 1;
      assert settings == settings[..n] + [settings[n]];
      LastValueSnoc(settings[..n], settings[n], f);
      LastValueMeaning(settings[..n], f, value);
    }
  }

  lemma LastValuesSnoc(settings: seq<Setting>, s: Setting)
    ensures forall f :: LastValue(settings + [s], f) == if s.flag == f then Some(s.value) else LastValue(settings, f)
  {
    forall f ensures LastValue(settings + [s], f) == if s.flag == f then Some(s.value) else LastValue(settings, f) {
      LastValueSnoc(settings, s, f);
    }
  }

  /** One token other than the separator: a flag, with its inline value or the
      next token's, or the error the parser stops with. */
  method NextSetting(args: seq<string>) returns (front: Front, iter: seq<string>)
    requires args != [] && args[0] != "--"
    ensures front == FrontOf(args)
    ensures front.Take? ==> iter == args[front.n..]
    ensures front.Halt? ==> front.stop.Bad?
  {
    var text := args[0];
    iter := args[1..];
    if !Dashed(text) {
      return Halt(Bad(UnexpectedToken(text))), iter;
    }
    var (name, inlineValue) := SplitOnce(text);
    var flag := FlagOf(name);
    if flag.None? {
      return Halt(Bad(UnknownFlag(name))), iter;
    }
    var value := inlineValue;
    if value.None? && iter != [] {
      value := Some(iter[0]);
      iter := iter[1..];
    }
    if value.None? {
      return Halt(Bad(MissingValue(name))), iter;
    }
    front := Take(Setting(flag.value, value.value, inlineValue.Some?), |args| - |iter|);
  }

  method ParseProtocolArgs(args: seq<string>) returns (parsed: Parsed)
    ensures parsed == Assemble(Read(args))
  {
    var policyCwd: Option<string> := None;
    var policyJson: Option<string> := None;
    var seccompJson: Option<string> := None;
    var limitsJson: Option<string> := None;
    var command: seq<string> := [];

    ghost var seen: seq<Setting> := [];
    var iter := args;
    ghost var stop := End;
    PrependTwice([], [], Read(args));
    while iter != []
      invariant Read(args) == Prepend(seen, Read(iter))
      invariant policyCwd == LastValue(seen, PolicyCwd) && policyJson == LastValue(seen, Policy)
      invariant seccompJson == LastValue(seen, Seccomp) && limitsJson == LastValue(seen, Limits)
      invariant command == [] && stop == End
      decreases |iter|
    {
      var text := iter[0];
      if text == "--" {
        command := iter[1..];
        stop := Separator(command);
        break;
      }
      var token;
      token, iter := NextSetting(iter);
      if token.Halt? {
        return Err(token.stop.error);
      }
      PrependTwice(seen, [token.s], Read(iter));
      LastValuesSnoc(seen, token.s);
      seen := seen + [token.s];
      match token.s.flag {
        case PolicyCwd => policyCwd := Some(token.s.value);
        case Policy => policyJson := Some(token.s.value);
        case Seccomp => seccompJson := Some(token.s.value);
        case Limits => limitsJson := Some(token.s.value);
      }
    }

    assert Read(args) == Reading(seen, stop);
    if command == [] {
      return Err(NoCommand);
    }
    if policyCwd.None? {
      return Err(MissingFlag(PolicyCwd));
    }
    if policyJson.None? {
      return Err(MissingFlag(Policy));
    }
    if limitsJson.None? {
      return Err(MissingFlag(Limits));
    }
    return Ok(Protocol(policyCwd.value, policyJson.value, seccompJson, limitsJson.value, command));
  }

  /** What goes wrong, and in which order it is noticed: a token that cannot be
      read comes first, then a missing command, then the first missing flag. */
  lemma Refusals(settings: seq<Setting>, rest: seq<string>, stop: Stop)
    requires StopsAt(stop, rest)
    ensures var parsed := Assemble(Read(PrintAll(settings) + rest));
            && (stop.Bad? ==> parsed == Err(stop.error))
            && (stop == End || stop == Separator([]) ==> parsed == Err(NoCommand))
            && (stop.Separator? && stop.command != [] ==>
                  var cwd, policy := LastValue(settings, PolicyCwd), LastValue(settings, Policy);
                  var limits := LastValue(settings, Limits);
                  && (cwd.None? ==> parsed == Err(MissingFlag(PolicyCwd)))
                  && (cwd.Some? && policy.None? ==> parsed == Err(MissingFlag(Policy)))
                  && (cwd.Some? && policy.Some? && limits.None? ==> parsed == Err(MissingFlag(Limits))))
  {
    ReadPrinted(settings, rest);
    ReadStop(stop, rest);
    assert settings + [] == settings;
  }

  /** Parsing succeeds exactly on the grammar, the last setting of a flag
      winning, and the record it returns is the one the tokens describe. */
  lemma ParsesExactlyTheGrammar(args: seq<string>, p: Protocol)
    ensures Assemble(Read(args)) == Ok(p) <==>
            p.command != [] &&
            exists settings :: args == PrintInvocation(settings, p.command) && Complete(settings)
                               && p == ProtocolOf(settings, p.command)
  {
    if Assemble(Read(args)) == Ok(p) {
      var rest := ReadingExplained(args);
      assert args == PrintInvocation(Read(args).settings, p.command);
    }
    if p.command != [] {
      if settings :| args == PrintInvocation(settings, p.command) && Complete(settings)
                     && p == ProtocolOf(settings, p.command) {
        ReadInvocation(settings, p.command);
      }
    }
  }

  lemma ReadInvocation(settings: seq<Setting>, command: seq<string>)
    ensures Read(PrintInvocation(settings, command)) == Reading(settings, Separator(command))
  {
    ReadPrinted(settings, ["--"] + command);
    ReadStop(Separator(command), ["--"] + command);
  }

  /** Whatever the order of the flags, however each value is given and whatever
      it contains, printing and then parsing gives the record back. */
  lemma RoundTrip(settings: seq<Setting>, command: seq<string>)
    requires Complete(settings) && command != []
    ensures Assemble(Read(PrintInvocation(settings, command))) == Ok(ProtocolOf(settings, command))
  {
    ReadInvocation(settings, command);
  }

  /** The tokens determine the settings and the command: the grammar is unambiguous. */
  lemma Unambiguous(a: seq<Setting>, x: seq<string>, b: seq<Setting>, y: seq<string>)
    requires PrintInvocation(a, x) == PrintInvocation(b, y)
    ensures a == b && x == y
  {
    ReadInvocation(a, x);
    ReadInvocation(b, y);
  }

  // ---------- The sandbox manager's command line ----------

  function ManagerArgs(cwd: string, policy: string, seccomp: string, limits: string,
                       program: string, args: seq<string>): seq<string>
  {
    ["--sandbox-policy-cwd", cwd, "--sandbox-policy", policy, "--seccomp-profile", seccomp,
     "--resource-limits", limits, "--", program] + args
  }

  function ManagerSettings(cwd: string, policy: string, seccomp: string, limits: string): seq<Setting> {
    [Setting(PolicyCwd, cwd, false), Setting(Policy, policy, false),
     Setting(Seccomp, seccomp, false), Setting(Limits, limits, false)]
  }

  lemma FourPrinted(a: Setting, b: Setting, c: Setting, d: Setting)
    requires !a.inlined && !b.inlined && !c.inlined && !d.inlined
    ensures PrintAll([a, b, c, d]) ==
            [FlagName(a.flag), a.value, FlagName(b.flag), b.value, FlagName(c.flag), c.value, FlagName(d.flag), d.value]
  {
    ConsPrints(a, [b, c, d]);
    ConsPrints(b, [c, d]);
    ConsPrints(c, [d]);
    ConsPrints(d, []);
    assert [a] + [b, c, d] == [a, b, c, d] && [b] + [c, d] == [b, c, d] && [c] + [d] == [c, d] && [d] + [] == [d];
  }

  lemma ManagerPrints(cwd: string, policy: string, seccomp: string, limits: string,
                      program: string, args: seq<string>)
    ensures ManagerArgs(cwd, policy, seccomp, limits, program, args) ==
            PrintInvocation(ManagerSettings(cwd, policy, seccomp, limits), [program] + args)
  {
    FourPrinted(Setting(PolicyCwd, cwd, false), Setting(Policy, policy, false),
                Setting(Seccomp, seccomp, false), Setting(Limits, limits, false));
  }

  lemma ManagerValues(cwd: string, policy: string, seccomp: string, limits: string)
    ensures var settings := ManagerSettings(cwd, policy, seccomp, limits);
            && LastValue(settings, PolicyCwd) == Some(cwd) && LastValue(settings, Policy) == Some(policy)
            && LastValue(settings, Seccomp) == Some(seccomp) && LastValue(settings, Limits) == Some(limits)
  {
    var a, b := Setting(PolicyCwd, cwd, false), Setting(Policy, policy, false);
    var c, d := Setting(Seccomp, seccomp, false), Setting(Limits, limits, false);
    LastValuesSnoc([], a);
    LastValuesSnoc([a], b);
    LastValuesSnoc([a, b], c);
    LastValuesSnoc([a, b, c], d);
    assert [] + [a] == [a] && [a] + [b] == [a, b] && [a, b] + [c] == [a, b, c] && [a, b, c] + [d] == [a, b, c, d];
  }

  /** What the sandbox manager writes, the launcher reads back, for every
      value, program and argument list. */
  lemma ManagerRoundTrip(cwd: string, policy: string, seccomp: string, limits: string,
                         program: string, args: seq<string>)
    ensures Assemble(Read(ManagerArgs(cwd, policy, seccomp, limits, program, args))) ==
            Ok(Protocol(cwd, policy, Some(seccomp), limits, [program] + args))
  {
    ManagerPrints(cwd, policy, seccomp, limits, program, args);
    ManagerValues(cwd, policy, seccomp, limits);
    RoundTrip(ManagerSettings(cwd, policy, seccomp, limits), [program] + args);
  }
}
