// The terminal client's global options: taken out of the argument array in
// place, wherever they stand, before the command itself is read.
module GlobalOptions {
  import opened Wrappers
  import opened Text

  // The variables the options set.
  datatype Variable =
    | GatewayUrl | Cwd | InitialSession | Color | Display | Language | Json | Verbose | Mock | Dev

  datatype Tongue = Chinese | English

  datatype Setting = Unset | Words(text: string) | Yes(on: bool) | Speaks(tongue: Tongue)

  type Settings = map<Variable, Setting>

  datatype Write = Write(variable: Variable, setting: Setting)

  datatype UsageError = ValueRequired(name: string) | UnsupportedLanguage

  // What one argument is: not a global option, a switch, or an option with its
  // value in the same word or in the next.
  datatype Token =
    | Other
    | Switch(writes: seq<Write>)
    | Inline(option: Variable, value: string)
    | Separate(option: Variable)

  // A global option: a switch with its writes, or a name that takes a value.
  datatype GlobalOption = Valued(name: string, option: Variable) | Flag(name: string, writes: seq<Write>)

  function On(name: string, v: Variable): GlobalOption { Flag(name, [Write(v, Yes(true))]) }

  // In the order in which an argument is compared with them.
  const OPTIONS: seq<GlobalOption> := [
    Valued("--gateway-url", GatewayUrl),
    Valued("--cwd", Cwd),
    Valued("--initial-session", InitialSession),
    On("--json", Json),
    On("--verbose", Verbose),
    On("--mock", Mock),
    On("--dev", Dev),
    Valued("--color", Color),
    Flag("--plain", [Write(Display, Words("plain")), Write(Color, Words("never"))]),
    Flag("--rich", [Write(Display, Words("rich"))]),
    Valued("--lang", Language),
    Valued("--language", Language)]

  function ReadIn(options: seq<GlobalOption>, arg: string): Token {
    if options == [] then Other
    else
      var option := options[0];
      if arg == option.name then
        match option
        case Valued(_, v) => Separate(v)
        case Flag(_, writes) => Switch(writes)
      else if option.Valued? && StartsWith(arg, option.name + "=") then Inline(option.option, arg[|option.name| + 1..])
      else ReadIn(options[1..], arg)
  }

  function Read(arg: string): Token { ReadIn(OPTIONS, arg) }

  function ParseLanguage(value: string): Option<Tongue> {
    var name := Lower(value);
    if name == "zh" || name == "zh-cn" || name == "cn" then Some(Chinese)
    else if name == "en" || name == "en-us" || name == "en-gb" then Some(English)
    else None
  }

  // The write of an option and its value; only a language can be refused.
  function WriteOf(option: Variable, value: string): Result<seq<Write>, UsageError> {
    if option == Language then
      match ParseLanguage(value)
      case Some(tongue) => Ok([Write(Language, Speaks(tongue))])
      case None => Err(UnsupportedLanguage)
    else Ok([Write(option, Words(value))])
  }

  // ------------------------------------------------ the one-pass specification

  // What the first argument writes, and how many arguments it takes out.
  function First(args: seq<string>): (r: Result<(seq<Write>, nat), UsageError>)
    requires args != []
    ensures r.Ok? ==> r.value.1 <= |args|
  {
    match Read(args[0])
    case Other => Ok(([], 0))
    case Switch(writes) => Ok((writes, 1))
    case Inline(option, value) => Taken(WriteOf(option, value), 1)
    case Separate(option) =>
      if |args| == 1 || args[1] == "" then Err(ValueRequired(args[0]))
      else Taken(WriteOf(option, args[1]), 2)
  }

  function Taken(writes: Result<seq<Write>, UsageError>, count: nat): Result<(seq<Write>, nat), UsageError> {
    match writes
    case Ok(ws) => Ok((ws, count))
    case Err(e) => Err(e)
  }

  // The arguments left over and the writes made, in order.
  datatype Parsed = Parsed(leftovers: seq<string>, writes: seq<Write>)

  function Then(leftovers: seq<string>, writes: seq<Write>, rest: Result<Parsed, UsageError>): Result<Parsed, UsageError> {
    match rest
    case Err(e) => Err(e)
    case Ok(p) => Ok(Parsed(leftovers + p.leftovers, writes + p.writes))
  }

  function Parse(args: seq<string>): Result<Parsed, UsageError>
    decreases |args|
  {
    if args == [] then Ok(Parsed([], []))
    else
      match First(args)
      case Err(e) => Err(e)
      case Ok((writes, taken)) =>
        if taken == 0 then Then([args[0]], [], Parse(args[1..]))
        else Then([], writes, Parse(args[taken..]))
  }

  // The variables after some writes.
  function Applied(writes: seq<Write>, initial: Settings): Settings {
    if writes == [] then initial
    else
      var last := writes[|writes| - 1];
      Applied(writes[..|writes| - 1], initial)[last.variable := last.setting]
  }

  // -------------------------------------------------------------- properties

  predicate LastWriteAt(writes: seq<Write>, v: Variable, i: nat) {
    i < |writes| && writes[i].variable == v && forall j :: i < j < |writes| ==> writes[j].variable != v
  }

  // A variable holds what the last option that sets it says.
  lemma {:induction false} LastWriteWins(writes: seq<Write>, initial: Settings, v: Variable, i: nat)
    requires LastWriteAt(writes, v, i)
    ensures v in Applied(writes, initial) && Applied(writes, initial)[v] == writes[i].setting
    decreases |writes|
  {
    var n := |writes| - 1;
    if i < n {
      assert writes[n].variable != v;
      LastWriteWins(writes[..n], initial, v, i);
    }
  }

  // A variable that no option sets keeps its initial value.
  lemma {:induction false} UnwrittenStays(writes: seq<Write>, initial: Settings, v: Variable)
    requires forall i :: 0 <= i < |writes| ==> writes[i].variable != v
    ensures v in Applied(writes, initial) <==> v in initial
    ensures v in initial ==> Applied(writes, initial)[v] == initial[v]
    decreases |writes|
  {
    if writes != [] {
      UnwrittenStays(writes[..|writes| - 1], initial, v);
    }
  }

  lemma {:induction false} AppliedJoin(first: seq<Write>, second: seq<Write>, initial: Settings)
    ensures Applied(first + second, initial) == Applied(second, Applied(first, initial))
    decreases |second|
  {
    if second == [] {
      assert first + second == first;
    } else {
      AppliedJoin(first, second[..|second| - 1], initial);
      assert (first + second)[..|first + second| - 1] == first + second[..|second| - 1];
    }
  }

  ghost predicate AllOther(args: seq<string>) { forall i :: 0 <= i < |args| ==> Read(args[i]) == Other }

  // Only arguments that are not global options are left.
  lemma {:induction false} LeftoversAreOther(args: seq<string>)
    ensures Parse(args).Ok? ==> AllOther(Parse(args).value.leftovers)
    decreases |args|
  {
    if args != [] && First(args).Ok? {
      var (_, taken) := First(args).value;
      LeftoversAreOther(args[if taken == 0 then 1 else taken..]);
    }
  }

  lemma {:induction false} OthersStay(args: seq<string>)
    requires AllOther(args)
    ensures Parse(args) == Ok(Parsed(args, []))
    decreases |args|
  {
    if args != [] {
      OthersStay(args[1..]);
      assert [args[0]] + args[1..] == args;
      var none: seq<Write> := [];
      assert none + none == none;
    }
  }

  // Run on its own leftovers, the parser removes and writes nothing.
  lemma LeftoversStay(args: seq<string>)
    requires Parse(args).Ok?
    ensures var left := Parse(args).value.leftovers; Parse(left) == Ok(Parsed(left, []))
  {
    LeftoversAreOther(args);
    OthersStay(Parse(args).value.leftovers);
  }

  // ------------------------------------------------------ the two spellings

  // An option and its value in one word.
  function Assignment(name: string, value: string): string { name + ("=" + value) }

  predicate NoEquals(name: string) { forall k :: 0 <= k < |name| ==> name[k] != '=' }

  // Names without an equals sign that are followed by one are the same when
  // one of the texts begins with the other.
  lemma SameName(name: string, other: string, value: string)
    requires NoEquals(name) && NoEquals(other) && other + "=" <= Assignment(name, value)
    ensures name == other
  {
    var text := Assignment(name, value);
    assert text[|other|] == (other + "=")[|other|] == '=';
    assert forall k :: 0 <= k < |other| ==> text[k] == other[k];
    FindAt(text, '=', |other|);
    FindAt(text, '=', |name|);
    assert text[..|name|] == name && text[..|other|] == other;
  }

  lemma NotAssigned(name: string, other: string)
    requires NoEquals(name)
    ensures !StartsWith(name, other + "=")
  {
    assert (other + "=")[|other|] == '=';
  }

  ghost predicate Distinct(options: seq<GlobalOption>) {
    && (forall i, j :: 0 <= i < j < |options| ==> options[i].name != options[j].name)
    && (forall i :: 0 <= i < |options| ==> NoEquals(options[i].name))
  }

  lemma {:induction false} ReadNamed(options: seq<GlobalOption>, i: nat)
    requires Distinct(options) && i < |options|
    ensures ReadIn(options, options[i].name) ==
            match options[i] case Valued(_, v) => Separate(v) case Flag(_, writes) => Switch(writes)
    decreases i
  {
    if i > 0 {
      var arg := options[i].name;
      assert arg != options[0].name;
      NotAssigned(arg, options[0].name);
      ReadNamed(options[1..], i - 1);
    }
  }

  lemma {:induction false} ReadAssigned(options: seq<GlobalOption>, i: nat, value: string)
    requires Distinct(options) && i < |options| && options[i].Valued?
    ensures ReadIn(options, Assignment(options[i].name, value)) == Inline(options[i].option, value)
    decreases i
  {
    var name := options[i].name;
    var arg := Assignment(name, value);
    assert arg[|name|] == '=' && arg[|name| + 1..] == value;
    assert arg != options[0].name by { assert NoEquals(options[0].name); }
    if i == 0 {
      assert name + "=" <= arg;
    } else {
      if StartsWith(arg, options[0].name + "=") {
        SameName(name, options[0].name, value);
      }
      ReadAssigned(options[1..], i - 1, value);
    }
  }

  // Length and first letter tell the options apart.
  const LENGTHS: seq<nat> := [13, 5, 17, 6, 9, 6, 5, 7, 7, 6, 6, 10]
  const INITIALS := "gcijvmdcprll"

  lemma OptionMark(i: nat)
    requires i < |OPTIONS|
    ensures var name := OPTIONS[i].name;
      i < |LENGTHS| && i < |INITIALS| && |name| == LENGTHS[i] && name[2] == INITIALS[i] && NoEquals(name)
  {
  }

  lemma MarksDiffer(i: nat, j: nat)
    requires i < j < 12
    ensures |LENGTHS| == 12 && |INITIALS| == 12 && (LENGTHS[i] != LENGTHS[j] || INITIALS[i] != INITIALS[j])
  {
  }

  lemma OptionsAreDistinct()
    ensures Distinct(OPTIONS)
  {
    forall i | 0 <= i < |OPTIONS| ensures NoEquals(OPTIONS[i].name) {
      OptionMark(i);
    }
    forall i, j | 0 <= i < j < |OPTIONS| ensures OPTIONS[i].name != OPTIONS[j].name {
      OptionMark(i);
      OptionMark(j);
      MarksDiffer(i, j);
    }
  }

  // Every option is read as itself: a switch, or a name whose value is in the
  // next word or after an equals sign.
  lemma OptionsAreRead(i: nat, value: string)
    requires i < |OPTIONS|
    ensures match OPTIONS[i]
      case Valued(name, v) => Read(name) == Separate(v) && Read(Assignment(name, value)) == Inline(v, value)
      case Flag(name, writes) => Read(name) == Switch(writes)
  {
    OptionsAreDistinct();
    ReadNamed(OPTIONS, i);
    if OPTIONS[i].Valued? {
      ReadAssigned(OPTIONS, i, value);
    }
  }

  // What each option says, by its name.
  lemma ValuedOptionsSay()
    ensures Read("--gateway-url") == Separate(GatewayUrl) && Read("--cwd") == Separate(Cwd)
    ensures Read("--initial-session") == Separate(InitialSession) && Read("--color") == Separate(Color)
    ensures Read("--lang") == Separate(Language) && Read("--language") == Separate(Language)
  {
    OptionsAreRead(0, "");
    OptionsAreRead(1, "");
    OptionsAreRead(2, "");
    OptionsAreRead(7, "");
    OptionsAreRead(10, "");
    OptionsAreRead(11, "");
  }

  lemma SwitchesSay()
    ensures Read("--json") == Switch([Write(Json, Yes(true))]) && Read("--verbose") == Switch([Write(Verbose, Yes(true))])
    ensures Read("--mock") == Switch([Write(Mock, Yes(true))]) && Read("--dev") == Switch([Write(Dev, Yes(true))])
    ensures Read("--plain") == Switch([Write(Display, Words("plain")), Write(Color, Words("never"))])
    ensures Read("--rich") == Switch([Write(Display, Words("rich"))])
  {
    OptionsAreRead(3, "");
    OptionsAreRead(4, "");
    OptionsAreRead(5, "");
    OptionsAreRead(6, "");
    OptionsAreRead(8, "");
    OptionsAreRead(9, "");
  }

  predicate Matches(arg: string, option: GlobalOption) {
    arg == option.name || (option.Valued? && Assignment(option.name, "") <= arg)
  }

  lemma {:induction false} OtherIn(options: seq<GlobalOption>, arg: string)
    ensures ReadIn(options, arg) == Other <==> forall i :: 0 <= i < |options| ==> !Matches(arg, options[i])
  {
    if options != [] {
      OtherIn(options[1..], arg);
      assert options == [options[0]] + options[1..];
      assert options[0].name + ("=" + "") == options[0].name + "=";
    }
  }

  // Left alone is exactly what is no option's name and does not begin with the
  // name of one that takes a value and an equals sign.
  lemma OtherIsNoOption(arg: string)
    ensures Read(arg) == Other <==> forall i :: 0 <= i < |OPTIONS| ==> !Matches(arg, OPTIONS[i])
  {
    OtherIn(OPTIONS, arg);
  }

  // A value is taken as it is, except that a language is known by six names in
  // any case, and no other is accepted.
  lemma ValuesSay(option: Variable, value: string)
    ensures option != Language ==> WriteOf(option, value) == Ok([Write(option, Words(value))])
    ensures Lower(value) in ["zh", "zh-cn", "cn"] ==> WriteOf(Language, value) == Ok([Write(Language, Speaks(Chinese))])
    ensures Lower(value) in ["en", "en-us", "en-gb"] ==> WriteOf(Language, value) == Ok([Write(Language, Speaks(English))])
    ensures Lower(value) !in ["zh", "zh-cn", "cn", "en", "en-us", "en-gb"] ==>
      WriteOf(Language, value) == Err(UnsupportedLanguage)
  {
    var name := Lower(value);
    if name in ["en", "en-us", "en-gb"] {
      assert name[0] == 'e';
    }
  }

  // `--name value` and `--name=value` do the same wherever they stand, except
  // that only the second may give an empty value.
  lemma SpellingsAgree(i: nat, value: string, rest: seq<string>)
    requires i < |OPTIONS| && OPTIONS[i].Valued?
    ensures var name := OPTIONS[i].name;
      if value != "" then Parse([name, value] + rest) == Parse([Assignment(name, value)] + rest)
      else Parse([name, value] + rest) == Err(ValueRequired(name))
  {
    var name := OPTIONS[i].name;
    OptionsAreRead(i, value);
    var two, one := [name, value] + rest, [Assignment(name, value)] + rest;
    assert two[0] == name && two[1] == value && two[2..] == rest;
    assert one[0] == Assignment(name, value) && one[1..] == rest;
  }

  // ------------------------------------------------------------ the code

  // The argument array, edited in place.
  class Arguments {
    var items: seq<string>

    constructor (argv: seq<string>)
      ensures items == argv
    {
      items := argv;
    }

    method Splice(index: nat, count: nat)
      requires index + count <= |items|
      modifies this
      ensures items == old(items[..index] + items[index + count..])
    {
      items := items[..index] + items[index + count..];
    }

    method TakeValue(index: nat) returns (r: Result<string, UsageError>)
      requires index < |items|
      modifies this
      ensures index + 1 == |old(items)| || old(items[index + 1]) == "" ==>
        r == Err(ValueRequired(old(items[index]))) && items == old(items)
      ensures index + 1 < |old(items)| && old(items[index + 1]) != "" ==>
        r == Ok(old(items[index + 1])) && items == old(items[..index] + items[index + 2..])
    {
      if index + 1 == |items| || items[index + 1] == "" {
        return Err(ValueRequired(items[index]));
      }
      r := Ok(items[index + 1]);
      Splice(index, 2);
    }
  }

  // What was read so far, put before what is still to come.
  lemma ThenThen(left1: seq<string>, writes1: seq<Write>, left2: seq<string>, writes2: seq<Write>, rest: Result<Parsed, UsageError>)
    ensures Then(left1, writes1, Then(left2, writes2, rest)) == Then(left1 + left2, writes1 + writes2, rest)
  {
    if rest.Ok? {
      assert left1 + (left2 + rest.value.leftovers) == (left1 + left2) + rest.value.leftovers;
      assert writes1 + (writes2 + rest.value.writes) == (writes1 + writes2) + rest.value.writes;
    }
  }

  lemma Begin(argv: seq<string>)
    ensures Then(argv[..0], [], Parse(argv[0..])) == Parse(argv)
  {
    assert argv[..0] == [] && argv[0..] == argv;
    if Parse(argv).Ok? {
      var p := Parse(argv).value;
      assert [] + p.leftovers == p.leftovers && [] + p.writes == p.writes;
    }
  }

  lemma Finish(items: seq<string>, done: seq<Write>)
    ensures Then(items[..|items|], done, Parse(items[|items|..])) == Ok(Parsed(items, done))
  {
    assert items[..|items|] + [] == items && done + [] == done;
  }

  lemma KeepOne(items: seq<string>, index: nat, done: seq<Write>)
    requires index < |items| && Read(items[index]) == Other
    ensures Then(items[..index], done, Parse(items[index..])) == Then(items[..index + 1], done, Parse(items[index + 1..]))
  {
    ThenThen(items[..index], done, [items[index]], [], Parse(items[index + 1..]));
    assert items[index..][1..] == items[index + 1..];
    assert items[..index] + [items[index]] == items[..index + 1] && done + [] == done;
  }

  lemma TakeSome(items: seq<string>, index: nat, done: seq<Write>, writes: seq<Write>, taken: nat)
    requires index < |items| && taken > 0 && First(items[index..]) == Ok((writes, taken))
    ensures index + taken <= |items|
    ensures var after := items[..index] + items[index + taken..];
      && after[..index] == items[..index]
      && Then(items[..index], done, Parse(items[index..])) == Then(after[..index], done + writes, Parse(after[index..]))
  {
    var after := items[..index] + items[index + taken..];
    assert items[index..][taken..] == items[index + taken..] == after[index..];
    ThenThen(items[..index], done, [], writes, Parse(after[index..]));
    assert items[..index] + [] == items[..index] == after[..index];
  }

  lemma StopHere(items: seq<string>, index: nat, done: seq<Write>, e: UsageError)
    requires index < |items| && First(items[index..]) == Err(e)
    ensures Then(items[..index], done, Parse(items[index..])) == Err(e)
  {
  }

  // The option at an index is taken out of the array.
  method TakeOption(args: Arguments, index: nat) returns (r: Result<seq<Write>, UsageError>)
    requires index < |args.items| && Read(args.items[index]) != Other
    modifies args
    ensures var first := First(old(args.items)[index..]);
      match first
      case Err(e) => r == Err(e)
      case Ok((writes, taken)) =>
        && r == Ok(writes) && taken > 0 && index + taken <= |old(args.items)|
        && args.items == old(args.items[..index]) + old(args.items)[index + taken..]
  {
    var arg := args.items[index];
    match Read(arg)
    case Switch(writes) =>
      args.Splice(index, 1);
      r := Ok(writes);
    case Inline(option, value) =>
      r := WriteOf(option, value);
      if r.Ok? {
        args.Splice(index, 1);
      }
    case Separate(option) =>
      var value := args.TakeValue(index);
      if value.Err? {
        return Err(value.error);
      }
      r := WriteOf(option, value.value);
  }

  // What is read so far, with what is still to come, is the whole parse.
  predicate Reading(items: seq<string>, index: nat, done: seq<Write>, argv: seq<string>) {
    index <= |items| && Then(items[..index], done, Parse(items[index..])) == Parse(argv)
  }

  lemma TakenHere(before: seq<string>, after: seq<string>, index: nat, done: seq<Write>, writes: seq<Write>,
                  argv: seq<string>)
    requires index < |before| && Reading(before, index, done, argv)
    requires match First(before[index..])
      case Err(_) => false
      case Ok((ws, taken)) =>
        ws == writes && taken > 0 && index + taken <= |before| && after == before[..index] + before[index + taken..]
    ensures |after| < |before| && Reading(after, index, done + writes, argv)
  {
    TakeSome(before, index, done, writes, First(before[index..]).value.1);
  }

  // One turn of the loop at an option: the array shrinks, the settings change.
  method TakeHere(args: Arguments, index: nat, settings: Settings,
                  ghost argv: seq<string>, ghost done: seq<Write>, ghost initial: Settings)
    returns (r: Result<Settings, UsageError>, ghost now: seq<Write>)
    requires index < |args.items| && Read(args.items[index]) != Other
    requires Reading(args.items, index, done, argv)
    requires settings == Applied(done, initial)
    modifies args
    ensures r.Err? ==> Parse(argv) == Err(r.error)
    ensures r.Ok? ==>
      && |args.items| < |old(args.items)|
      && Reading(args.items, index, now, argv)
      && r.value == Applied(now, initial)
  {
    ghost var before := args.items;
    var writes := TakeOption(args, index);
    if writes.Err? {
      StopHere(before, index, done, writes.error);
      return Err(writes.error), done;
    }
    TakenHere(before, args.items, index, done, writes.value, argv);
    AppliedJoin(done, writes.value, initial);
    now := done + writes.value;
    r := Ok(Applied(writes.value, settings));
  }

  // The loop over the array, which shrinks or whose index grows in every turn.
  method TakeAll(args: Arguments, initial: Settings) returns (r: Result<Settings, UsageError>)
    modifies args
    ensures Parse(old(args.items)).Err? ==> r == Err(Parse(old(args.items)).error)
    ensures Parse(old(args.items)).Ok? ==>
      && r == Ok(Applied(Parse(old(args.items)).value.writes, initial))
      && args.items == Parse(old(args.items)).value.leftovers
  {
    var settings := initial;
    ghost var done: seq<Write> := [];
    ghost var argv := args.items;
    var index := 0;
    Begin(argv);
    while index < |args.items|
      invariant 0 <= index && Reading(args.items, index, done, argv)
      invariant settings == Applied(done, initial)
      decreases |args.items| - index
    {
      if Read(args.items[index]) == Other {
        KeepOne(args.items, index, done);
        index := index + 1;
        continue;
      }
      r, done := TakeHere(args, index, settings, argv, done, initial);
      if r.Err? {
        return;
      }
      settings := r.value;
    }
    Finish(args.items, done);
    r := Ok(settings);
  }

  method ParseGlobal(argv: seq<string>, initial: Settings) returns (r: Result<(seq<string>, Settings), UsageError>)
    ensures Parse(argv).Err? ==> r == Err(Parse(argv).error)
    ensures Parse(argv).Ok? ==> r == Ok((Parse(argv).value.leftovers, Applied(Parse(argv).value.writes, initial)))
  {
    var args := new Arguments(argv);
    var settings := TakeAll(args, initial);
    r := if settings.Ok? then Ok((args.items, settings.value)) else Err(settings.error);
  }
}
