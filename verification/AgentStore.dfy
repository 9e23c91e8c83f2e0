// The directory of agent definitions: one sub-directory per agent, found again
// by the name or an alias written in its configuration file.
module AgentStore {
  import opened Wrappers
  import opened Text

  // The parts of a configuration that lookup and deletion depend on.
  datatype Config = Config(agentName: string, aliases: seq<string>, isDefault: bool, rest: string)

  // A sub-directory; its configuration may be missing, unreadable or malformed.
  datatype Directory = Directory(config: Option<Config>)

  type Tree = map<string, Directory>

  // Where the file system fails an operation, if it does; Unseen makes a
  // directory look absent.
  datatype Fault = NoFault | Unseen | AtStart | Halfway | AtEnd

  function NormalizeId(id: string): string { Lower(Trim(id)) }

  predicate IsIdChar(c: char) {
    'a' <= c <= 'z' || 'A' <= c <= 'Z' || '0' <= c <= '9' || c == '_' || c == '-'
  }

  // The sub-directory an id names, when it may name one.
  function DynamicAgentPath(id: string): Option<string> {
    var name := NormalizeId(id);
    if name == "" || exists i :: 0 <= i < |name| && !IsIdChar(name[i]) then None else Some(name)
  }

  predicate InOneName(c: char) { IsDigit(c) || 'a' <= LowerChar(c) <= 'z' || c in "_-" }

  // A path is the trimmed lower-case id, and there is one exactly when that is
  // not empty and has only letters, digits, underscores and dashes; so it
  // never leads out of the directory of agents.
  lemma PathIsOneName(id: string)
    ensures DynamicAgentPath(id).Some? <==> !AllBlank(id) && forall k :: 0 <= k < |Trim(id)| ==> InOneName(Trim(id)[k])
    ensures DynamicAgentPath(id).Some? ==>
      var name := DynamicAgentPath(id).value;
      name == Lower(Trim(id)) && name != "" && '.' !in name && '/' !in name && '\\' !in name
  {
    TrimIsEmpty(id);
    var name := Lower(Trim(id));
    forall k | 0 <= k < |name| ensures IsIdChar(name[k]) <==> InOneName(Trim(id)[k]) {
      assert name[k] == LowerChar(Trim(id)[k]);
    }
  }

  // str::eq_ignore_ascii_case
  predicate SameIgnoringCase(a: string, b: string) { Lower(a) == Lower(b) }

  predicate Answers(c: Config, id: string) {
    || SameIgnoringCase(c.agentName, id)
    || exists i :: 0 <= i < |c.aliases| && SameIgnoringCase(c.aliases[i], id)
  }

  // The name, or the alias at this position, is the id up to case.
  predicate IsNamed(c: Config, id: string) { Lower(c.agentName) == NormalizeId(id) }

  predicate HasAlias(c: Config, id: string, k: nat) {
    k < |c.aliases| && Lower(c.aliases[k]) == NormalizeId(id)
  }

  lemma LowerTwice(s: string)
    ensures Lower(Lower(s)) == Lower(s)
  {
  }

  ghost predicate HasName(c: Config, id: string) { IsNamed(c, id) || exists k: nat :: HasAlias(c, id, k) }

  // An agent answers to an id by its name or by any one of its aliases.
  lemma AnswersByAnyName(c: Config, id: string)
    ensures Answers(c, NormalizeId(id)) <==> HasName(c, id)
  {
    LowerTwice(Trim(id));
    if Answers(c, NormalizeId(id)) && !IsNamed(c, id) {
      var i :| 0 <= i < |c.aliases| && SameIgnoringCase(c.aliases[i], NormalizeId(id));
      assert HasAlias(c, id, i);
    }
    if exists k: nat :: HasAlias(c, id, k) {
      var k: nat :| HasAlias(c, id, k);
      assert SameIgnoringCase(c.aliases[k], NormalizeId(id));
    }
  }

  // ---------------------------------------------------------------- key order

  // The order of strings, by code point.
  predicate Before(a: string, b: string) {
    if b == [] then false
    else if a == [] then true
    else if a[0] != b[0] then a[0] < b[0]
    else Before(a[1..], b[1..])
  }

  lemma {:induction false} BeforeIsTotal(a: string, b: string)
    ensures a == b || Before(a, b) || Before(b, a)
    ensures !(Before(a, b) && Before(b, a)) && (a == b ==> !Before(a, b))
  {
    if a != [] && b != [] {
      BeforeIsTotal(a[1..], b[1..]);
      if a[0] == b[0] && a[1..] == b[1..] {
        assert a == [a[0]] + a[1..] && b == [b[0]] + b[1..];
      }
    }
  }

  lemma {:induction false} BeforeIsTransitive(a: string, b: string, c: string)
    requires Before(a, b) && Before(b, c)
    ensures Before(a, c)
  {
    if a != [] && a[0] == b[0] && b[0] == c[0] {
      BeforeIsTransitive(a[1..], b[1..], c[1..]);
    }
  }

  // ---------------------------------------------------------------- alignment

  predicate Readable(tree: Tree, d: string) { d in tree && tree[d].config.Some? }

  predicate IsDefault(tree: Tree, d: string) { Readable(tree, d) && tree[d].config.value.isDefault }

  // Every directory is named by its configuration's name in lower case.
  ghost predicate Aligned(tree: Tree) {
    forall d :: Readable(tree, d) ==> Lower(tree[d].config.value.agentName) == d
  }

  // No agent's directory has blanks around its name.
  ghost predicate CleanNames(tree: Tree) {
    forall d :: Readable(tree, d) ==> Trimmed(d)
  }

  // The tree as a look-up sees it that cannot read the configurations of some
  // directories, all of them when the store itself cannot be listed. The code
  // passes over what it cannot read.
  function Seen(tree: Tree, hidden: set<string>): (seen: Tree)
    ensures forall d :: Readable(seen, d) <==> Readable(tree, d) && d !in hidden
    ensures forall d :: Readable(seen, d) ==> d in tree && seen[d] == tree[d]
    ensures hidden == {} ==> seen == tree
  {
    map d | d in tree :: if d in hidden then Directory(None) else tree[d]
  }

  lemma LowerKeepsBlanks(s: string)
    ensures Trimmed(Lower(s)) <==> Trimmed(s)
    ensures Lower(Lower(s)) == Lower(s)
  {
    assert forall i :: 0 <= i < |s| ==> (IsBlank(Lower(s)[i]) <==> IsBlank(s[i]));
  }

  lemma {:induction false} LowerTrimStart(s: string)
    ensures Lower(TrimStart(s)) == TrimStart(Lower(s))
  {
    if s != [] {
      assert Lower(s)[0] == LowerChar(s[0]) && Lower(s)[1..] == Lower(s[1..]);
      LowerTrimStart(s[1..]);
    }
  }

  lemma {:induction false} LowerTrimEnd(s: string)
    ensures Lower(TrimEnd(s)) == TrimEnd(Lower(s))
  {
    if s != [] {
      var last := |s| - 1;
      assert Lower(s)[last] == LowerChar(s[last]) && Lower(s)[..last] == Lower(s[..last]);
      LowerTrimEnd(s[..last]);
    }
  }

  lemma NormalizedIsTrimmedLower(s: string)
    ensures NormalizeId(s) == Trim(Lower(s))
  {
    LowerTrimStart(s);
    LowerTrimEnd(TrimStart(s));
  }

  // Saving writes the configuration where its own name says, if and only if
  // that name has no surrounding blanks.
  lemma SaveAlignsExactlyTrimmedNames(name: string)
    ensures Lower(name) == NormalizeId(name) <==> Trimmed(name)
  {
    TrimProperty(name);
    assert |Lower(name)| == |name| && |NormalizeId(name)| == |Trim(name)|;
  }

  // The agent an id stands for: among those that answer, the first by name.
  ghost predicate Resolves(tree: Tree, id: string, d: string) {
    && Readable(tree, d) && Answers(tree[d].config.value, NormalizeId(id))
    && forall e :: Readable(tree, e) && Answers(tree[e].config.value, NormalizeId(id)) ==> e == d || Before(d, e)
  }

  lemma ResolvesOne(tree: Tree, id: string, d: string, e: string)
    requires Resolves(tree, id, d) && Resolves(tree, id, e)
    ensures d == e
  {
    BeforeIsTotal(d, e);
  }

  // When an agent has the id as its name or an alias, the id resolves, to it or
  // to an earlier agent that has it too.
  lemma {:induction false} SomeoneResolves(tree: Tree, id: string, d: string, later: set<string>) returns (e: string)
    requires Readable(tree, d) && Answers(tree[d].config.value, NormalizeId(id))
    requires forall x :: x in tree && x !in later ==> x == d || Before(d, x)
    ensures Resolves(tree, id, e) && (e == d || Before(e, d))
    decreases |later|
  {
    if x :| Readable(tree, x) && Answers(tree[x].config.value, NormalizeId(id)) && x != d && !Before(d, x) {
      BeforeIsTotal(x, d);
      forall y | y in tree && y !in later - {x} ensures y == x || Before(x, y) {
        if y != x && y != d { BeforeIsTransitive(x, d, y); }
      }
      e := SomeoneResolves(tree, id, x, later - {x});
      if e != x { BeforeIsTransitive(e, x, d); }
    } else {
      e := d;
    }
  }

  lemma AnyNameResolves(tree: Tree, id: string, d: string)
    requires Readable(tree, d) && HasName(tree[d].config.value, id)
    ensures exists e :: Resolves(tree, id, e) && (e == d || Before(e, d)) && HasName(tree[e].config.value, id)
  {
    AnswersByAnyName(tree[d].config.value, id);
    var e := SomeoneResolves(tree, id, d, tree.Keys);
    AnswersByAnyName(tree[e].config.value, id);
  }

  lemma NobodyIsNamed(tree: Tree, id: string)
    ensures NobodyAnswers(tree, id) <==> forall d :: Readable(tree, d) ==> !HasName(tree[d].config.value, id)
  {
    forall d | Readable(tree, d)
      ensures Answers(tree[d].config.value, NormalizeId(id)) <==> HasName(tree[d].config.value, id)
    {
      AnswersByAnyName(tree[d].config.value, id);
    }
  }

  // No agent answers to the id.
  ghost predicate NobodyAnswers(tree: Tree, id: string) {
    forall d :: Readable(tree, d) ==> !Answers(tree[d].config.value, NormalizeId(id))
  }

  // The directory a delete aims at: where the name of the resolved agent, which
  // must not be a default one, says, or else where the id itself says.
  ghost predicate Target(tree: Tree, id: string, d: string) {
    || (exists a :: Resolves(tree, id, a) && !IsDefault(tree, a) && DynamicAgentPath(a) == Some(d))
    || (NobodyAnswers(tree, id) && DynamicAgentPath(id) == Some(d))
  }

  // In an aligned store the name of an agent says the same as the name of its
  // directory: that directory itself if and only if it has no surrounding
  // blanks, and otherwise the one without them.
  lemma DeletesOwnDirectory(tree: Tree, d: string)
    requires Aligned(tree) && Readable(tree, d)
    ensures DynamicAgentPath(tree[d].config.value.agentName) == DynamicAgentPath(d)
    ensures match DynamicAgentPath(d)
      case None => true
      case Some(target) => target == Trim(d) && (target == d <==> Trimmed(d))
  {
    var name := tree[d].config.value.agentName;
    LowerKeepsBlanks(name);
    NormalizedIsTrimmedLower(name);
    NormalizedIsTrimmedLower(d);
    TrimProperty(d);
  }

  // What a delete aims at when its id resolves.
  lemma Aim(tree: Tree, id: string, a: string)
    requires Aligned(tree) && Resolves(tree, id, a)
    ensures DynamicAgentPath(tree[a].config.value.agentName) == DynamicAgentPath(a)
    ensures forall d :: Resolves(tree, id, d) <==> d == a
    ensures forall d :: Target(tree, id, d) <==> !IsDefault(tree, a) && DynamicAgentPath(a) == Some(d)
    ensures DynamicAgentPath(a).Some? ==> DynamicAgentPath(a).value == Trim(a) && (Trim(a) == a <==> Trimmed(a))
  {
    DeletesOwnDirectory(tree, a);
    assert !NobodyAnswers(tree, id);
    forall d | Resolves(tree, id, d) ensures d == a { ResolvesOne(tree, id, d, a); }
  }

  lemma TargetIsUnique(tree: Tree, id: string, d: string, e: string)
    requires Target(tree, id, d) && Target(tree, id, e)
    ensures d == e
  {
    if NobodyAnswers(tree, id) {
    } else {
      var a :| Resolves(tree, id, a) && DynamicAgentPath(a) == Some(d);
      var b :| Resolves(tree, id, b) && DynamicAgentPath(b) == Some(e);
      ResolvesOne(tree, id, a, b);
    }
  }

  // The id resolves, for the look-up, to an agent that is no default one, but
  // whose directory name has blanks around the name of this default agent's.
  ghost predicate Shadows(tree: Tree, hidden: set<string>, id: string, d: string) {
    && IsDefault(tree, d) && DynamicAgentPath(d).Some?
    && exists a :: Resolves(Seen(tree, hidden), id, a) && !IsDefault(tree, a) && !Trimmed(a) && Trim(a) == d
  }

  // The id is this default agent's own, whose configuration the look-up cannot
  // read, and no other agent answers to it.
  ghost predicate Overlooks(tree: Tree, hidden: set<string>, id: string, d: string) {
    IsDefault(tree, d) && d in hidden && NobodyAnswers(Seen(tree, hidden), id) && DynamicAgentPath(id) == Some(d)
  }

  lemma HitHasReason(tree: Tree, hidden: set<string>, id: string, d: string)
    requires Aligned(tree) && Target(Seen(tree, hidden), id, d) && IsDefault(tree, d)
    ensures Shadows(tree, hidden, id, d) || Overlooks(tree, hidden, id, d)
  {
    var seen := Seen(tree, hidden);
    if NobodyAnswers(seen, id) {
      NotNamed(seen, id);
    } else {
      var a :| Resolves(seen, id, a) && !IsDefault(seen, a) && DynamicAgentPath(a) == Some(d);
      DeletesOwnDirectory(seen, a);
      TrimProperty(a);
      TrimProperty(d);
      SamePath(a, d);
    }
  }

  lemma ShadowMeansHit(tree: Tree, hidden: set<string>, id: string, d: string)
    requires Aligned(tree) && Shadows(tree, hidden, id, d)
    ensures Target(Seen(tree, hidden), id, d)
  {
    var a :| Resolves(Seen(tree, hidden), id, a) && !IsDefault(tree, a) && !Trimmed(a) && Trim(a) == d;
    DeletesOwnDirectory(tree, d);
    TrimProperty(a);
    TrimProperty(d);
    SamePath(a, d);
    assert !IsDefault(Seen(tree, hidden), a) && DynamicAgentPath(a) == Some(d);
  }

  lemma SamePath(a: string, d: string)
    requires Trim(a) == Trim(d)
    ensures DynamicAgentPath(a) == DynamicAgentPath(d)
  {
  }

  // A delete endangers a default agent.
  ghost predicate Strikes(tree: Tree, hidden: set<string>, id: string, d: string) {
    Shadows(tree, hidden, id, d) || Overlooks(tree, hidden, id, d)
  }

  // A delete aims at a default agent exactly when another agent shadows it, or
  // the look-up for its own id overlooks it.
  lemma HitsDefaultExactly(tree: Tree, hidden: set<string>, id: string, d: string)
    requires Aligned(tree)
    ensures Target(Seen(tree, hidden), id, d) && IsDefault(tree, d) <==> Strikes(tree, hidden, id, d)
  {
    if Target(Seen(tree, hidden), id, d) && IsDefault(tree, d) { HitHasReason(tree, hidden, id, d); }
    if Shadows(tree, hidden, id, d) { ShadowMeansHit(tree, hidden, id, d); }
  }

  lemma HitsADefault(tree: Tree, hidden: set<string>, id: string)
    requires Aligned(tree)
    ensures (exists d :: Target(Seen(tree, hidden), id, d) && IsDefault(tree, d)) <==> exists d :: Strikes(tree, hidden, id, d)
  {
    forall d ensures Target(Seen(tree, hidden), id, d) && IsDefault(tree, d) <==> Strikes(tree, hidden, id, d) {
      HitsDefaultExactly(tree, hidden, id, d);
    }
  }

  // ---------------------------------------------------------------- the steps

  // The store after a save that fails, or not, at one of its points.
  function Saved(tree: Tree, config: Config, fault: Fault): Tree {
    match DynamicAgentPath(config.agentName)
    case None => tree
    case Some(d) =>
      match fault
      case AtStart => tree
      case Halfway => tree[d := Directory(None)]
      case _ => tree[d := Directory(Some(config))]
  }

  function Removed(tree: Tree, d: string, fault: Fault): Tree {
    match fault
    case NoFault => tree - {d}
    case Unseen => tree
    case AtStart => tree
    case _ => tree[d := Directory(None)]
  }

  // The store before and after a delete.
  ghost predicate Deletes(before: Tree, hidden: set<string>, id: string, fault: Fault, after: Tree) {
    var seen := Seen(before, hidden);
    if exists d :: Target(seen, id, d) && d in before
    then exists d :: Target(seen, id, d) && d in before && after == Removed(before, d, fault)
    else after == before
  }

  // ---------------------------------------------------------------- the store

  class AgentStore {
    var tree: Tree

    constructor (tree: Tree)
      ensures this.tree == tree
    {
      this.tree := tree;
    }

    // Reads every sub-directory, in whatever order the file system lists them,
    // but for those it cannot read; of two configurations under one lower-cased
    // name the first read wins.
    method DiscoverAgents(hidden: set<string>) returns (agents: map<string, (string, Config)>)
      ensures var seen := Seen(tree, hidden);
        && (forall key :: key in agents ==>
              Readable(seen, agents[key].0) && seen[agents[key].0].config == Some(agents[key].1)
              && Lower(agents[key].1.agentName) == key)
        && (forall d :: Readable(seen, d) ==> Lower(seen[d].config.value.agentName) in agents)
    {
      agents := map[];
      var rest := tree.Keys;
      while rest != {}
        invariant rest <= tree.Keys
        invariant forall key :: key in agents ==>
          Readable(tree, agents[key].0) && agents[key].0 !in hidden
          && tree[agents[key].0].config == Some(agents[key].1) && Lower(agents[key].1.agentName) == key
        invariant forall d :: Readable(tree, d) && d !in hidden && d !in rest ==>
          Lower(tree[d].config.value.agentName) in agents
        decreases |rest|
      {
        var d :| d in rest;
        rest := rest - {d};
        if d !in hidden && tree[d].config.Some? {
          var config := tree[d].config.value;
          if Lower(config.agentName) !in agents {
            agents := agents[Lower(config.agentName) := (d, config)];
          }
        }
      }
    }

    // The first discovered agent, in key order, that has the id as its name or
    // as any of its aliases.
    method LoadAgent(id: string, hidden: set<string>) returns (found: Option<Config>)
      ensures var seen := Seen(tree, hidden);
        && (found.Some? ==>
              HasName(found.value, id) && exists d :: Readable(seen, d) && seen[d].config == found)
        && (Aligned(tree) && found.Some? ==>
              Resolves(seen, id, Lower(found.value.agentName)) && seen[Lower(found.value.agentName)].config == found)
        && (Aligned(tree) && found.None? ==>
              NobodyAnswers(seen, id) && forall d :: Readable(seen, d) ==> !HasName(seen[d].config.value, id))
    {
      var agents := DiscoverAgents(hidden);
      ghost var seen := Seen(tree, hidden);
      assert Aligned(tree) ==> forall key :: key in agents ==> agents[key].0 == key;
      assert Aligned(tree) ==> forall d :: Readable(seen, d) ==> d in agents;
      var least := LeastAnswering(agents, NormalizeId(id));
      NobodyIsNamed(seen, id);
      if least.None? {
        return None;
      }
      found := Some(agents[least.value].1);
      AnswersByAnyName(found.value, id);
    }

    // Writes a configuration under its normalized name. The system may fail at
    // any point, leaving the directory absent, as it was, without a readable
    // configuration, or written but not read back; nothing else is touched.
    method SaveDynamicAgent(config: Config, fault: Fault) returns (ok: bool)
      modifies this
      ensures ok <==> fault == NoFault && DynamicAgentPath(config.agentName).Some?
      ensures tree == Saved(old(tree), config, fault)
      ensures ok ==> tree == old(tree)[DynamicAgentPath(config.agentName).value := Directory(Some(config))]
      ensures !ok ==> forall d :: d in old(tree) && DynamicAgentPath(config.agentName) != Some(d) ==>
        d in tree && tree[d] == old(tree)[d]
      ensures Trimmed(config.agentName) && old(Aligned(tree) && CleanNames(tree)) ==> Aligned(tree) && CleanNames(tree)
      ensures ok && old(Aligned(tree)) ==> (Aligned(tree) <==> Trimmed(config.agentName))
      ensures forall d :: d in tree ==> d in old(tree) || DynamicAgentPath(config.agentName) == Some(d)
    {
      SaveAlignsExactlyTrimmedNames(config.agentName);
      LowerKeepsBlanks(config.agentName);
      var path := DynamicAgentPath(config.agentName);
      if path.None? || fault == AtStart {
        return false;
      }
      if fault == Halfway {
        tree := tree[path.value := Directory(None)];
        return false;
      }
      tree := tree[path.value := Directory(Some(config))];
      assert Readable(tree, path.value);
      ok := fault == NoFault;
      if !ok {
        assert forall d :: Readable(tree, d) && d != path.value ==> Readable(old(tree), d);
      }
    }

    // Removes the directory of the agent an id or alias resolves to, or the
    // directory the id itself names when no agent is found that answers to it.
    // The look-up may fail to read any configurations, which it passes over; the
    // directory may look absent; and removing it may leave it behind with or
    // without its configuration.
    method DeleteDynamicAgent(id: string, hidden: set<string>, fault: Fault) returns (r: Result<bool, string>)
      modifies this
      ensures forall d :: d in tree ==> d in old(tree) && (tree[d] == old(tree)[d] || tree[d].config.None?)
      ensures forall d, e :: Touched(old(tree), tree, d) && Touched(old(tree), tree, e) ==> d == e
      ensures r == Ok(true) ==> exists d :: d in old(tree) && tree == old(tree) - {d}
      ensures r == Ok(false) ==> tree == old(tree)
      ensures old(Aligned(tree)) ==> Aligned(tree) && Deletes(old(tree), hidden, id, fault, tree)
      ensures old(CleanNames(tree)) ==> CleanNames(tree)
      ensures old(Aligned(tree)) ==> var seen := Seen(old(tree), hidden);
        && (forall d :: Touched(old(tree), tree, d) ==> Target(seen, id, d))
        && (forall d :: Touched(old(tree), tree, d) && IsDefault(old(tree), d) ==> Strikes(old(tree), hidden, id, d))
        && (forall d :: Resolves(seen, id, d) && (IsDefault(seen, d) || DynamicAgentPath(d) == None) ==>
              r.Err? && tree == old(tree))
        && (forall d :: Resolves(seen, id, d) && !IsDefault(seen, d) && DynamicAgentPath(d).Some? && fault == NoFault ==>
              r == Ok(Trim(d) in old(tree)) && tree == old(tree) - {Trim(d)} && (d !in tree <==> Trimmed(d)))
      ensures old(Aligned(tree)) ==> forall d ::
        Readable(Seen(old(tree), hidden), d) && HasName(Seen(old(tree), hidden)[d].config.value, id) ==>
          FirstNamedIsDeleted(old(tree), hidden, id, fault, d, r, tree)
    {
      var target := ChooseTarget(id, hidden);
      if target.Err? {
        r := Err(target.error);
      } else {
        r := RemoveIfThere(target.value, fault);
        if old(Aligned(tree)) { DeleteEffects(old(tree), hidden, id, fault, target.value, tree); }
      }
      if old(Aligned(tree)) { NamedIsDeleted(old(tree), hidden, id, fault, r, tree); }
    }

    method RemoveIfThere(d: string, fault: Fault) returns (r: Result<bool, string>)
      modifies this
      ensures tree == if d in old(tree) then Removed(old(tree), d, fault) else old(tree)
      ensures forall e :: e in tree ==> e in old(tree) && (tree[e] == old(tree)[e] || tree[e].config.None?)
      ensures forall e :: Touched(old(tree), tree, e) ==> e == d
      ensures r == Ok(true) ==> d in old(tree) && tree == old(tree) - {d}
      ensures r == Ok(false) ==> tree == old(tree)
      ensures fault == NoFault ==> r == Ok(d in old(tree))
      ensures old(CleanNames(tree)) ==> CleanNames(tree)
    {
      if d !in tree || fault == Unseen {
        return Ok(false);
      }
      r := RemoveDirectory(d, fault);
      assert forall e :: Readable(tree, e) ==> Readable(old(tree), e);
    }

    // The directory a delete would remove.
    method ChooseTarget(id: string, hidden: set<string>) returns (r: Result<string, string>)
      ensures Aligned(tree) ==> var seen := Seen(tree, hidden);
        && (forall d :: r == Ok(d) <==> Target(seen, id, d))
        && (forall d :: Resolves(seen, id, d) && !IsDefault(seen, d) && r.Ok? ==>
              r.value == Trim(d) && (r.value == d <==> Trimmed(d)))
        && (r.Err? ==> forall d :: Resolves(seen, id, d) ==> IsDefault(seen, d) || DynamicAgentPath(d) == None)
        && (r.Ok? && Readable(seen, r.value) ==> exists d :: Resolves(seen, id, d))
        && (r.Ok? && IsDefault(tree, r.value) <==> exists d :: Strikes(tree, hidden, id, d))
    {
      var found := LoadAgent(id, hidden);
      if Aligned(tree) {
        if found.Some? {
          Aim(Seen(tree, hidden), id, Lower(found.value.agentName));
        } else {
          NotNamed(Seen(tree, hidden), id);
        }
      }
      if found.Some? && found.value.isDefault {
        return Err("default_config agents cannot be deleted");
      }
      var path := DynamicAgentPath(if found.Some? then found.value.agentName else id);
      r := if path.None? then Err("invalid agent id") else Ok(path.value);
      if Aligned(tree) { HitsADefault(tree, hidden, id); }
    }

    method RemoveDirectory(d: string, fault: Fault) returns (r: Result<bool, string>)
      requires d in tree && fault != Unseen
      modifies this
      ensures r.Ok? <==> fault == NoFault
      ensures r.Ok? ==> r.value
      ensures tree == Removed(old(tree), d, fault)
    {
      if fault == AtStart {
        return Err("failed to delete agent");
      }
      if fault != NoFault {
        tree := tree[d := Directory(None)];
        return Err("failed to delete agent");
      }
      tree := tree - {d};
      r := Ok(true);
    }
  }

  lemma AimOfAll(seen: Tree, id: string, target: string)
    requires Aligned(seen) && Target(seen, id, target)
    ensures forall d :: Resolves(seen, id, d) ==>
      !IsDefault(seen, d) && DynamicAgentPath(d) == Some(target) && target == Trim(d) && (target == d <==> Trimmed(d))
  {
    forall d | Resolves(seen, id, d)
      ensures !IsDefault(seen, d) && DynamicAgentPath(d) == Some(target) && target == Trim(d) && (target == d <==> Trimmed(d))
    {
      Aim(seen, id, d);
    }
  }

  // The first agent in name order that has the id as its name or an alias, this
  // one or an earlier one, is refused if it is a default agent or has an
  // unusable name, and otherwise, if nothing fails, what its name says is gone.
  ghost predicate FirstNamedIsDeleted(before: Tree, hidden: set<string>, id: string, fault: Fault, d: string,
                                      r: Result<bool, string>, after: Tree)
  {
    var seen := Seen(before, hidden);
    exists e :: Resolves(seen, id, e) && (e == d || Before(e, d)) && HasName(seen[e].config.value, id)
                && Settled(before, hidden, fault, e, r, after)
  }

  ghost predicate Settled(before: Tree, hidden: set<string>, fault: Fault, e: string, r: Result<bool, string>, after: Tree) {
    if IsDefault(Seen(before, hidden), e) || DynamicAgentPath(e) == None then r.Err? && after == before
    else fault == NoFault ==> r == Ok(Trim(e) in before) && after == before - {Trim(e)}
  }

  lemma NamedIsDeleted(before: Tree, hidden: set<string>, id: string, fault: Fault, r: Result<bool, string>, after: Tree)
    requires forall d :: Resolves(Seen(before, hidden), id, d) ==> Settled(before, hidden, fault, d, r, after)
    ensures forall d :: Readable(Seen(before, hidden), d) && HasName(Seen(before, hidden)[d].config.value, id) ==>
      FirstNamedIsDeleted(before, hidden, id, fault, d, r, after)
  {
    forall d | Readable(Seen(before, hidden), d) && HasName(Seen(before, hidden)[d].config.value, id)
      ensures exists e :: Resolves(Seen(before, hidden), id, e) && (e == d || Before(e, d))
                          && HasName(Seen(before, hidden)[e].config.value, id)
    {
      AnyNameResolves(Seen(before, hidden), id, d);
    }
  }

  // What a delete that aims at a directory changes.
  lemma DeleteEffects(before: Tree, hidden: set<string>, id: string, fault: Fault, target: string, after: Tree)
    requires Aligned(before) && Target(Seen(before, hidden), id, target)
    requires after == if target in before then Removed(before, target, fault) else before
    ensures Aligned(after) && Deletes(before, hidden, id, fault, after)
    ensures forall d :: Touched(before, after, d) ==> Target(Seen(before, hidden), id, d)
    ensures forall d :: Touched(before, after, d) && IsDefault(before, d) ==> Strikes(before, hidden, id, d)
    ensures forall d :: Resolves(Seen(before, hidden), id, d) ==>
      && !IsDefault(Seen(before, hidden), d) && DynamicAgentPath(d) == Some(target) && target == Trim(d)
      && (fault == NoFault ==> after == before - {target} && (d !in after <==> Trimmed(d)))
  {
    OnlyTargetTouched(before, hidden, id, fault, target, after);
    DeleteKeeps(before, hidden, id, fault, after);
    HitsDefaultExactly(before, hidden, id, target);
    ResolvedIsTarget(before, hidden, id, fault, target, after);
  }

  lemma OnlyTargetTouched(before: Tree, hidden: set<string>, id: string, fault: Fault, target: string, after: Tree)
    requires Target(Seen(before, hidden), id, target)
    requires after == if target in before then Removed(before, target, fault) else before
    ensures Deletes(before, hidden, id, fault, after)
    ensures forall d :: Touched(before, after, d) ==> d == target
  {
    var seen := Seen(before, hidden);
    forall d | Target(seen, id, d) ensures d == target { TargetIsUnique(seen, id, d, target); }
  }

  lemma ResolvedIsTarget(before: Tree, hidden: set<string>, id: string, fault: Fault, target: string, after: Tree)
    requires Aligned(before) && Target(Seen(before, hidden), id, target)
    requires after == if target in before then Removed(before, target, fault) else before
    ensures forall d :: Resolves(Seen(before, hidden), id, d) ==>
      && !IsDefault(Seen(before, hidden), d) && DynamicAgentPath(d) == Some(target) && target == Trim(d)
      && (fault == NoFault ==> after == before - {target} && (d !in after <==> Trimmed(d)))
  {
    assert target !in before ==> before - {target} == before;
    AimOfAll(Seen(before, hidden), id, target);
  }

  // The directory was there before and is gone or different now.
  predicate Touched(earlier: Tree, later: Tree, d: string) { d in earlier && (d !in later || later[d] != earlier[d]) }

  // When no agent answers to an id, the directory it names has no readable configuration.
  lemma NotNamed(tree: Tree, id: string)
    requires Aligned(tree) && NobodyAnswers(tree, id)
    ensures !Readable(tree, NormalizeId(id))
  {
    LowerKeepsBlanks(Trim(id));
    if Readable(tree, NormalizeId(id)) {
      assert SameIgnoringCase(tree[NormalizeId(id)].config.value.agentName, NormalizeId(id));
    }
  }

  method LeastAnswering(agents: map<string, (string, Config)>, id: string) returns (least: Option<string>)
    ensures least.Some? ==>
      && least.value in agents && Answers(agents[least.value].1, id)
      && forall key :: key in agents && Answers(agents[key].1, id) ==> key == least.value || Before(least.value, key)
    ensures least.None? ==> forall key :: key in agents ==> !Answers(agents[key].1, id)
  {
    least := None;
    var rest := agents.Keys;
    while rest != {}
      invariant rest <= agents.Keys
      invariant least.Some? ==>
        && least.value in agents && Answers(agents[least.value].1, id)
        && forall key :: key in agents && key !in rest && Answers(agents[key].1, id) ==>
             key == least.value || Before(least.value, key)
      invariant least.None? ==> forall key :: key in agents && key !in rest ==> !Answers(agents[key].1, id)
      decreases |rest|
    {
      var key :| key in rest;
      rest := rest - {key};
      if Answers(agents[key].1, id) {
        if least.None? {
          least := Some(key);
        } else {
          BeforeIsTotal(key, least.value);
          if Before(key, least.value) {
            forall other | other in agents && other !in rest && Answers(agents[other].1, id)
              ensures other == key || Before(key, other)
            {
              if Before(least.value, other) { BeforeIsTransitive(key, least.value, other); }
            }
            least := Some(key);
          }
        }
      }
    }
  }

  // ---------------------------------------------------------------- whole runs

  datatype Operation = Save(config: Config, fault: Fault) | Delete(id: string, hidden: set<string>, fault: Fault)

  ghost predicate Step(before: Tree, op: Operation, after: Tree) {
    match op
    case Save(config, fault) => after == Saved(before, config, fault)
    case Delete(id, hidden, fault) => Deletes(before, hidden, id, fault, after)
  }

  ghost predicate StepAt(history: seq<Tree>, ops: seq<Operation>, i: nat) {
    i < |ops| && i + 1 < |history| && Step(history[i], ops[i], history[i + 1])
  }

  ghost predicate StepsTo(history: seq<Tree>, ops: seq<Operation>, n: nat) {
    |history| == n + 1 && forall i :: 0 <= i < n ==> StepAt(history, ops, i)
  }

  // The trees a run goes through, from an aligned one on.
  ghost predicate IsRun(history: seq<Tree>, ops: seq<Operation>) {
    StepsTo(history, ops, |ops|) && Aligned(history[0])
  }

  lemma OneMoreStep(history: seq<Tree>, ops: seq<Operation>, n: nat, next: Tree)
    requires StepsTo(history, ops, n) && n < |ops| && Step(history[n], ops[n], next)
    ensures StepsTo(history + [next], ops, n + 1)
  {
    var longer := history + [next];
    forall i | 0 <= i < n + 1 ensures StepAt(longer, ops, i) {
      if i < n { assert StepAt(history, ops, i); }
    }
  }

  ghost predicate SavesTrimmedNames(ops: seq<Operation>) {
    forall i :: 0 <= i < |ops| && ops[i].Save? ==> Trimmed(ops[i].config.agentName)
  }

  // The operation, with no fault, would write to the directory, or is a delete
  // that a blank-framed name, or a look-up that overlooks it, turns against it.
  ghost predicate Endangers(tree: Tree, op: Operation, d: string) {
    match op
    case Save(config, _) => DynamicAgentPath(config.agentName) == Some(d)
    case Delete(id, hidden, _) => Strikes(tree, hidden, id, d)
  }

  // The directory is there before and after, with the same contents.
  predicate Kept(before: Tree, after: Tree, d: string) { d in before && d in after && after[d] == before[d] }

  lemma KeptTwice(first: Tree, second: Tree, third: Tree, d: string)
    requires Kept(first, second, d) && Kept(second, third, d)
    ensures Kept(first, third, d)
  {
  }

  lemma SaveKeeps(before: Tree, config: Config, fault: Fault)
    requires Trimmed(config.agentName) && Aligned(before)
    ensures Aligned(Saved(before, config, fault))
    ensures CleanNames(before) ==> CleanNames(Saved(before, config, fault))
  {
    SaveAlignsExactlyTrimmedNames(config.agentName);
    LowerKeepsBlanks(config.agentName);
    var after := Saved(before, config, fault);
    forall d | Readable(after, d)
      ensures Lower(after[d].config.value.agentName) == d && (CleanNames(before) ==> Trimmed(d))
    {
      if before != after && DynamicAgentPath(config.agentName) != Some(d) { assert Readable(before, d); }
    }
  }

  lemma DeleteKeeps(before: Tree, hidden: set<string>, id: string, fault: Fault, after: Tree)
    requires Deletes(before, hidden, id, fault, after) && Aligned(before)
    ensures Aligned(after) && (CleanNames(before) ==> CleanNames(after))
  {
    forall d | Readable(after, d) ensures Readable(before, d) && before[d] == after[d] {
    }
  }

  lemma DeleteSpares(before: Tree, hidden: set<string>, id: string, fault: Fault, after: Tree, d: string)
    requires Aligned(before) && IsDefault(before, d)
    ensures Deletes(before, hidden, id, fault, after) && !Strikes(before, hidden, id, d) ==> Kept(before, after, d)
  {
    HitsDefaultExactly(before, hidden, id, d);
    if Deletes(before, hidden, id, fault, after) && !Strikes(before, hidden, id, d) && after != before {
      var e :| Target(Seen(before, hidden), id, e) && e in before && after == Removed(before, e, fault);
      assert e != d;
    }
  }

  lemma DeleteHits(before: Tree, hidden: set<string>, id: string, after: Tree, d: string)
    requires Aligned(before)
    ensures Deletes(before, hidden, id, NoFault, after) && Strikes(before, hidden, id, d) ==> after == before - {d}
  {
    HitsDefaultExactly(before, hidden, id, d);
    if Deletes(before, hidden, id, NoFault, after) && Strikes(before, hidden, id, d) {
      assert Target(Seen(before, hidden), id, d) && d in before;
      var e :| Target(Seen(before, hidden), id, e) && e in before && after == Removed(before, e, NoFault);
      TargetIsUnique(Seen(before, hidden), id, d, e);
    }
  }

  // One step leaves a default agent's directory as it is unless it endangers
  // it, and a delete without fault that does so removes it.
  lemma DefaultStaysOneStep(before: Tree, op: Operation, after: Tree, d: string)
    requires Aligned(before) && Step(before, op, after) && IsDefault(before, d)
    ensures !Endangers(before, op, d) ==> Kept(before, after, d)
    ensures op.Delete? && op.fault == NoFault && Endangers(before, op, d) ==> after == before - {d}
  {
    if op.Delete? {
      if Endangers(before, op, d) {
        if op.fault == NoFault { DeleteHits(before, op.hidden, op.id, after, d); }
      } else {
        DeleteSpares(before, op.hidden, op.id, op.fault, after, d);
      }
    }
  }

  lemma RunStep(history: seq<Tree>, ops: seq<Operation>, i: nat)
    requires IsRun(history, ops) && i < |ops|
    ensures Step(history[i], ops[i], history[i + 1])
  {
    assert StepAt(history, ops, i);
  }

  lemma DefaultStaysInRun(history: seq<Tree>, ops: seq<Operation>, j: nat, d: string)
    requires IsRun(history, ops) && SavesTrimmedNames(ops) && 0 < j <= |ops|
    requires IsDefault(history[j - 1], d) && !Endangers(history[j - 1], ops[j - 1], d)
    ensures Kept(history[j - 1], history[j], d)
  {
    var before, op, after := history[j - 1], ops[j - 1], history[j];
    assert Aligned(before) by { RunStaysAligned(history, ops, j - 1); }
    assert Step(before, op, after) by { RunStep(history, ops, j - 1); }
    DefaultStaysOneStep(before, op, after, d);
  }

  // No operation between the two moments endangers the directory.
  ghost predicate Undisturbed(history: seq<Tree>, ops: seq<Operation>, i: nat, j: nat, d: string)
    requires j <= |ops| < |history|
  {
    forall k :: i <= k < j ==> !Endangers(history[k], ops[k], d)
  }

  lemma LastOfUndisturbed(history: seq<Tree>, ops: seq<Operation>, i: nat, j: nat, d: string)
    requires i < j <= |ops| < |history| && Undisturbed(history, ops, i, j, d)
    ensures Undisturbed(history, ops, i, j - 1, d) && !Endangers(history[j - 1], ops[j - 1], d)
  {
  }

  // In every run that saves only names without surrounding blanks, every tree
  // is aligned; when no directory name had blanks at first, none ever has.
  lemma {:induction false} RunStaysAligned(history: seq<Tree>, ops: seq<Operation>, i: nat)
    requires IsRun(history, ops) && SavesTrimmedNames(ops) && i <= |ops|
    ensures Aligned(history[i]) && (CleanNames(history[0]) ==> CleanNames(history[i]))
  {
    if i > 0 {
      RunStaysAligned(history, ops, i - 1);
      RunStep(history, ops, i - 1);
      match ops[i - 1]
      case Save(config, fault) => SaveKeeps(history[i - 1], config, fault);
      case Delete(id, hidden, fault) => DeleteKeeps(history[i - 1], hidden, id, fault, history[i]);
    }
  }

  // A default agent that is there at any moment of a run, from the start or
  // saved on the way, stays as it is up to any later moment unless some
  // operation in between endangers it.
  lemma {:induction false} DefaultsStay(history: seq<Tree>, ops: seq<Operation>, i: nat, j: nat, d: string)
    requires IsRun(history, ops) && SavesTrimmedNames(ops) && i <= j <= |ops| && IsDefault(history[i], d)
    requires Undisturbed(history, ops, i, j, d)
    ensures Kept(history[i], history[j], d)
    decreases j
  {
    if i < j {
      LastOfUndisturbed(history, ops, i, j, d);
      DefaultsStay(history, ops, i, j - 1, d);
      DefaultStaysInRun(history, ops, j, d);
      KeptTwice(history[i], history[j - 1], history[j], d);
    }
  }

  // Without blank-framed names, a delete that can read a default agent's
  // configuration does not endanger it.
  lemma CleanDeletesAreSafe(tree: Tree, id: string, hidden: set<string>, fault: Fault, d: string)
    requires CleanNames(tree) && d !in hidden
    ensures !Endangers(tree, Delete(id, hidden, fault), d)
  {
  }

  // So only a save under its own name changes it while deletes can read it.
  lemma CleanDefaultsStay(history: seq<Tree>, ops: seq<Operation>, i: nat, j: nat, d: string)
    requires IsRun(history, ops) && SavesTrimmedNames(ops) && CleanNames(history[0])
    requires i <= j <= |ops| && IsDefault(history[i], d)
    requires forall k :: i <= k < j && ops[k].Save? ==> DynamicAgentPath(ops[k].config.agentName) != Some(d)
    requires forall k :: i <= k < j && ops[k].Delete? ==> d !in ops[k].hidden
    ensures Kept(history[i], history[j], d)
  {
    forall k | i <= k < j ensures !Endangers(history[k], ops[k], d) {
      RunStaysAligned(history, ops, k);
      if ops[k].Delete? { CleanDeletesAreSafe(history[k], ops[k].id, ops[k].hidden, ops[k].fault, d); }
    }
    DefaultsStay(history, ops, i, j, d);
  }

  method Perform(store: AgentStore, op: Operation)
    requires Aligned(store.tree) && (op.Save? ==> Trimmed(op.config.agentName))
    modifies store
    ensures Step(old(store.tree), op, store.tree) && Aligned(store.tree)
  {
    match op
    case Save(config, fault) =>
      SaveKeeps(store.tree, config, fault);
      var _ := store.SaveDynamicAgent(config, fault);
    case Delete(id, hidden, fault) =>
      var _ := store.DeleteDynamicAgent(id, hidden, fault);
  }

  // Any run of saves of names without surrounding blanks, and of deletes, on
  // the store itself: its trees are such a run, so that all of the above holds.
  method RunOperations(store: AgentStore, ops: seq<Operation>) returns (ghost history: seq<Tree>)
    requires Aligned(store.tree) && SavesTrimmedNames(ops)
    modifies store
    ensures IsRun(history, ops) && history[0] == old(store.tree) && history[|ops|] == store.tree
    ensures Aligned(store.tree) && (old(CleanNames(store.tree)) ==> CleanNames(store.tree))
    ensures forall i, j, d :: 0 <= i <= j <= |ops| && IsDefault(history[i], d)
                              && Undisturbed(history, ops, i, j, d) ==>
              Kept(history[i], history[j], d)
  {
    history := [store.tree];
    for n := 0 to |ops|
      invariant StepsTo(history, ops, n) && history[0] == old(store.tree) && history[n] == store.tree
      invariant Aligned(store.tree)
    {
      Perform(store, ops[n]);
      OneMoreStep(history, ops, n, store.tree);
      history := history + [store.tree];
    }
    RunStaysAligned(history, ops, |ops|);
    forall i: nat, j: nat, d | 0 <= i <= j <= |ops| && IsDefault(history[i], d)
                     && Undisturbed(history, ops, i, j, d)
      ensures Kept(history[i], history[j], d)
    {
      DefaultsStay(history, ops, i, j, d);
    }
  }

  // An alias may shadow another agent's own name: the agent that comes first
  // is the one deleted, not the one so named.
  lemma AliasShadowsName()
    ensures var tree: Tree := map["a" := Directory(Some(Config("a", ["b"], false, ""))),
                                  "b" := Directory(Some(Config("b", [], false, "")))];
            Aligned(tree) && CleanNames(tree) && Resolves(tree, "b", "a")
  {
    var tree: Tree := map["a" := Directory(Some(Config("a", ["b"], false, ""))),
                          "b" := Directory(Some(Config("b", [], false, "")))];
    TrimProperty("b");
    assert Lower("a") == "a" && Lower("b") == "b" && NormalizeId("b") == "b";
    assert SameIgnoringCase(tree["a"].config.value.aliases[0], "b");
  }

  // ---------------------------------------------------------------- where it fails

  // A name saved with blanks around it: the directory it is written to answers
  // to no id, so that deleting by that id removes even a default agent.
  lemma BlankNameLosesDefaultAgent()
    ensures var config := Config(" x ", [], true, "");
            var tree: Tree := map["x" := Directory(Some(config))];
            && DynamicAgentPath(config.agentName) == Some("x")
            && !Aligned(tree)
            && (forall d :: Readable(tree, d) ==> !Answers(tree[d].config.value, NormalizeId("x")))
            && DynamicAgentPath("x") == Some("x") && tree["x"].config.value.isDefault
  {
    TrimsToX();
    var tree: Tree := map["x" := Directory(Some(Config(" x ", [], true, "")))];
    assert Readable(tree, "x");
    assert |Lower(" x ")| == 3 && |Lower("x")| == 1;
    assert Lower("x")[0] == 'x' && Lower("x") == "x";
  }

  lemma TrimsToX()
    ensures Trim(" x ") == "x" && Trim("x") == "x" && NormalizeId(" x ") == "x" && NormalizeId("x") == "x"
  {
    assert TrimStart(" x ") == "x " by { assert " x "[1..] == "x "; }
    assert TrimEnd("x ") == "x" by { assert "x "[..1] == "x"; }
    TrimProperty("x");
    assert Lower("x") == "x";
  }

  // A look-up that cannot read the only agent's configuration: a delete by that
  // default agent's own id aims at it, in an aligned store with clean names.
  lemma UnreadDefaultIsHit()
    ensures var tree: Tree := map["x" := Directory(Some(Config("x", [], true, "")))];
            Aligned(tree) && CleanNames(tree) && IsDefault(tree, "x") && Target(Seen(tree, {"x"}), "x", "x")
  {
    TrimsToX();
    var tree: Tree := map["x" := Directory(Some(Config("x", [], true, "")))];
    assert Lower("x") == "x" && Trimmed("x");
    assert NobodyAnswers(Seen(tree, {"x"}), "x");
  }

  // Alignment alone is not enough: in an aligned store with one blank-framed
  // directory, an alias of that agent deletes another, default agent.
  lemma BlankDirectoryHitsDefaultAgent()
    ensures var other := Config(" x ", ["foo"], false, "");
            var tree: Tree := map[" x " := Directory(Some(other)), "x" := Directory(Some(Config("x", [], true, "")))];
            && Aligned(tree) && !CleanNames(tree)
            && Resolves(tree, "foo", " x ") && !tree[" x "].config.value.isDefault
            && DynamicAgentPath(other.agentName) == Some("x") && tree["x"].config.value.isDefault
  {
    TrimsToX();
    var other := Config(" x ", ["foo"], false, "");
    var tree: Tree := map[" x " := Directory(Some(other)), "x" := Directory(Some(Config("x", [], true, "")))];
    assert Lower(" x ") == " x " && Lower("x") == "x" && Lower("foo") == "foo";
    assert Trim("foo") == "foo" by { TrimProperty("foo"); }
    assert NormalizeId("foo") == "foo";
    assert SameIgnoringCase(other.aliases[0], "foo");
    assert Readable(tree, " x ") && !Trimmed(" x ");
    assert "x" != "foo" by { assert |"x"| != |"foo"|; }
    assert !Answers(tree["x"].config.value, "foo");
  }
}
