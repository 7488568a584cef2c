/** The user object of acl.c. */
module Acl {
  import opened Options
  import opened Names
  import opened AclSpec
  import opened AclRules

  /** A refused rule changes nothing and reports its error; an accepted one gives the user it promises. */
  ghost predicate Matches(spec: Outcome, err: Option<Error>, before: AclSpec.User, after: AclSpec.User) {
    match spec
    case Ok(v) => err == None && after == v
    case Err(e) => err == Some(e) && after == before
  }

  method CommandIndex(commands: seq<Command>, name: string) returns (k: nat)
    ensures k == Find(commands, name)
  {
    k := 0;
    while k < |commands| && Lower(commands[k].name) != Lower(name)
      invariant 0 <= k <= |commands|
      invariant forall j :: 0 <= j < k ==> !SameName(commands[j].name, name)
    {
      k := k + 1;
    }
  }

  method CategoryIndex(names: seq<string>, name: string) returns (k: nat)
    ensures k == FindCategory(names, name)
  {
    k := 0;
    while k < |names| && Lower(name) != Lower(names[k])
      invariant 0 <= k <= |names|
      invariant forall j :: 0 <= j < k ==> !SameName(name, names[j])
    {
      k := k + 1;
    }
  }

  /** `strchr(s, '|')`. */
  method BarIndex(s: string) returns (i: nat)
    ensures i == Bar(s)
  {
    i := 0;
    while i < |s| && s[i] != '|'
      invariant 0 <= i <= |s|
      invariant forall j :: 0 <= j < i ==> s[j] != '|'
    {
      i := i + 1;
    }
  }

  /** `listSearchKey`: the first match, or the length. */
  method SearchKey(s: seq<string>, x: string) returns (i: nat)
    ensures i <= |s| && x !in s[..i] && (i < |s| ==> s[i] == x)
  {
    i := 0;
    while i < |s| && s[i] != x
      invariant 0 <= i <= |s| && x !in s[..i]
    {
      i := i + 1;
    }
  }

  lemma {:induction false} WithoutAt(s: seq<string>, x: string, i: nat)
    requires i < |s| && x !in s[..i] && s[i] == x
    ensures Without(s, x) == s[..i] + s[i + 1..]
    decreases i
  {
    if i > 0 {
      assert s[..i][0] == s[0];
      assert s[1..][..i - 1] == s[..i][1..];
      WithoutAt(s[1..], x, i - 1);
    }
  }

  /** Commands of a category whose bit has the given value. */
  function Count(commands: seq<Command>, p: Perms, category: nat, value: bool): nat {
    if commands == [] then 0 else
    var c := commands[|commands| - 1];
    Count(commands[..|commands| - 1], p, category, value)
      + if category in c.categories && Bit(p, c.id) == value then 1 else 0
  }

  lemma {:induction false} CountBound(commands: seq<Command>, p: Perms, category: nat, value: bool)
    ensures Count(commands, p, category, value) <= |commands|
    decreases |commands|
  {
    if commands != [] {
      CountBound(commands[..|commands| - 1], p, category, value);
    }
  }

  function Diff(env: Env, p: Perms, additive: bool, j: nat): nat {
    Count(env.commands, p, j, !additive)
  }

  function Same(env: Env, p: Perms, additive: bool, j: nat): nat {
    Count(env.commands, p, j, additive)
  }

  /** Worth emitting: more commands in common than different. */
  predicate Useful(env: Env, p: Perms, additive: bool, j: nat) {
    Same(env, p, additive, j) > Diff(env, p, additive, j)
  }

  /** Fewer differences, or as many and more in common. */
  predicate Beats(env: Env, p: Perms, additive: bool, j: nat, k: nat) {
    || Diff(env, p, additive, j) < Diff(env, p, additive, k)
    || (Diff(env, p, additive, j) == Diff(env, p, additive, k) && Same(env, p, additive, j) > Same(env, p, additive, k))
  }

  /** Among the first `n` categories, `best` is the first that no other one beats, or -1 if none is useful. */
  ghost predicate IsBest(env: Env, p: Perms, additive: bool, applied: seq<bool>, n: nat, best: int)
    requires n <= |applied|
  {
    && -1 <= best < n
    && (best == -1 ==> forall j :: 0 <= j < n && !applied[j] ==> !Useful(env, p, additive, j))
    && (best >= 0 ==>
      && !applied[best] && Useful(env, p, additive, best)
      && forall j :: 0 <= j < n && j != best && !applied[j] && Useful(env, p, additive, j) ==>
           !Beats(env, p, additive, j, best) && (j < best ==> Beats(env, p, additive, best, j)))
  }

  /** Categories not applied yet. */
  function Left(applied: seq<bool>): nat {
    if applied == [] then 0 else Left(applied[1..]) + if applied[0] then 0 else 1
  }

  lemma {:induction false} LeftAll(applied: seq<bool>)
    requires forall j :: 0 <= j < |applied| ==> !applied[j]
    ensures Left(applied) == |applied|
  {
    if applied != [] { LeftAll(applied[1..]); }
  }

  lemma {:induction false} LeftLess(applied: seq<bool>, j: nat)
    requires j < |applied| && !applied[j]
    ensures Left(applied[j := true]) == Left(applied) - 1
    decreases j
  {
    if j > 0 {
      assert applied[j := true][1..] == applied[1..][j - 1 := true];
      LeftLess(applied[1..], j - 1);
    } else {
      assert applied[0 := true][1..] == applied[1..];
    }
  }

  lemma BestIsNew(env: Env, p: Perms, additive: bool, applied: seq<bool>, best: int)
    requires IsBest(env, p, additive, applied, |applied|, best) && best != -1
    ensures 0 <= best < |applied| && !applied[best]
  {
  }

  /** One category rule keeps the fake user equal to what the rules build. */
  lemma CategoryStep(env: Env, base: AclSpec.User, fake: AclSpec.User, rules: seq<string>, j: nat, value: bool)
    requires EnvOk(env) && j < |env.categories|
    requires Shaped(base.perms) && PermsOk(env.commands, fake.perms)
    requires Replay(env, base, rules) == AclSpec.Ok(base.(perms := fake.perms))
    requires forall i :: 0 <= i < BITS ==> fake.perms.subs[i] == []
    ensures Shaped(fake.perms)
    ensures var op := CategoryToken(env.categories[j], value);
      var q := SetCategory(env.commands, fake.perms, j, value);
      && Apply(env, fake, op) == AclSpec.Ok(fake.(perms := q))
      && PermsOk(env.commands, q)
      && q.bits[FUTURE] == fake.perms.bits[FUTURE]
      && (forall i :: 0 <= i < BITS ==> q.subs[i] == [])
      && Replay(env, base, rules + [op]) == AclSpec.Ok(base.(perms := q))
  {
    hide Apply, Replay, SetCategory;
    ApplyCategory(env, fake, j, value);
    ApplyCategory(env, base.(perms := fake.perms), j, value);
    SetCategoryOk(env.commands, |env.commands|, fake.perms, j, value);
    assert env.commands[..|env.commands|] == env.commands;
    CategoryKeeps(env.commands, fake.perms, j, value);
    ReplayNext(env, base, rules, CategoryToken(env.categories[j], value));
  }

  lemma CommandStep(env: Env, base: AclSpec.User, r: Perms, rules: seq<string>, k: nat, value: bool)
    requires TableOk(env.commands) && k < |env.commands| && Shaped(base.perms) && Shaped(r)
    requires Replay(env, base, rules) == AclSpec.Ok(base.(perms := r))
    ensures Shaped(SetCommand(r, env.commands[k].id, value))
    ensures Replay(env, base, rules + [CommandToken(env.commands[k], value)])
         == AclSpec.Ok(base.(perms := SetCommand(r, env.commands[k].id, value)))
  {
    hide Apply, Replay;
    ApplyCommand(env, base.(perms := r), k, value);
    ReplayNext(env, base, rules, CommandToken(env.commands[k], value));
  }

  lemma SubStep(env: Env, base: AclSpec.User, r: Perms, rules: seq<string>, k: nat, sub: string)
    requires TableOk(env.commands) && k < |env.commands| && Shaped(base.perms) && Shaped(r)
    requires Replay(env, base, rules) == AclSpec.Ok(base.(perms := r))
    requires !Bit(r, env.commands[k].id) && sub != ""
    ensures env.commands[k].id < |r.subs|
    ensures Shaped(AddSub(r, env.commands[k].id, sub))
    ensures Replay(env, base, rules + [SubToken(env.commands[k], sub)])
         == AclSpec.Ok(base.(perms := AddSub(r, env.commands[k].id, sub)))
  {
    hide Apply, Replay;
    ApplySub(env, base.(perms := r), k, sub);
    ReplayNext(env, base, rules, SubToken(env.commands[k], sub));
  }

  lemma FirstStep(env: Env, base: AclSpec.User, fake: AclSpec.User, value: bool)
    requires EnvOk(env) && Shaped(base.perms) && Shaped(fake.perms)
    ensures var op := CategoryToken("all", value);
      && op == (if value then "+@all" else "-@all")
      && Apply(env, fake, op) == AclSpec.Ok(fake.(perms := SetAll(value)))
      && Replay(env, base, [op]) == AclSpec.Ok(base.(perms := SetAll(value)))
      && PermsOk(env.commands, SetAll(value))
  {
    hide Apply;
    var op := CategoryToken("all", value);
    ApplyAll(env, fake, value);
    ApplyAll(env, base, value);
    SetAllOk(env.commands, value);
    assert [op][..0] == [];
  }

  lemma SetBitBits(p: Perms, id: nat, value: bool)
    requires Shaped(p) && id < BITS
    ensures SetBit(p, id, value).bits == p.bits[id := value]
  {
  }

  lemma RebuiltOk(commands: seq<Command>, u: Perms, r: Perms)
    requires Rebuilt(commands, u, r, |commands|)
    ensures PermsOk(commands, r)
  {
  }

  lemma SetMeansNoSubs(commands: seq<Command>, u: Perms, id: nat)
    requires PermsOk(commands, u) && id < BITS && u.bits[id]
    ensures u.subs[id] == []
  {
  }

  // ------------------------------------------------------------------
  // The words and patterns of a description

  lemma ReplayNone(env: Env, u: AclSpec.User)
    requires Shaped(u.perms) && TableOk(env.commands)
    ensures Replay(env, u, []) == AclSpec.Ok(u)
  {
  }

  lemma {:induction false} ReplayAppend(env: Env, u: AclSpec.User, a: seq<string>, b: seq<string>)
    requires Shaped(u.perms) && TableOk(env.commands) && Replay(env, u, a).Ok?
    ensures Replay(env, u, a + b) == Replay(env, Replay(env, u, a).user, b)
    decreases |b|
  {
    hide Apply, TableOk;
    if b == [] {
      assert a + b == a;
    } else {
      ReplayAppend(env, u, a, b[..|b| - 1]);
      assert (a + b)[..|a + b| - 1] == a + b[..|b| - 1];
    }
  }

  ghost function Became(f: AclSpec.User, a: Access, present: bool, k: Keyword): Access {
    if present then KeywordRule(f.(access := a), k).access else a
  }

  /** How a description writes a keyword. */
  function Spelling(k: Keyword): string {
    match k
    case On => "on"
    case Off => "off"
    case SkipSanitize => "skip-sanitize-payload"
    case Sanitize => "sanitize-payload"
    case AllKeys => "~*"
    case ResetKeys => "resetkeys"
    case AllChannels => "&*"
    case ResetChannels => "resetchannels"
    case AllCommands => "+@all"
    case NoCommands => "-@all"
    case NoPass => "nopass"
    case ResetPass => "resetpass"
    case NotAKeyword => ""
  }

  lemma SpellingIsRead(k: Keyword)
    requires k != NotAKeyword
    ensures Spelling(k) != "" && KeywordOf(Lower(Spelling(k))) == k
  {
    assert Lower(Spelling(k)) == Spelling(k);
  }

  /** Append the word for `k` when the user has it. */
  method Emit(env: Env, ghost f: AclSpec.User, ghost a: Access, first: seq<string>, present: bool, k: Keyword)
    returns (rules: seq<string>)
    requires EnvOk(env) && Shaped(f.perms) && k != NotAKeyword && k != AllCommands && k != NoCommands
    requires Replay(env, f, first) == AclSpec.Ok(f.(access := a))
    ensures Replay(env, f, rules) == AclSpec.Ok(f.(access := Became(f, a, present, k)))
  {
    hide Replay, KeywordOf, Lower, TableOk, CategoriesOk, Spelling;
    rules := first;
    if present {
      SpellingIsRead(k);
      ReplayNext(env, f, first, Spelling(k));
      rules := first + [Spelling(k)];
    }
  }

  lemma PlainPattern(op: string)
    requires op != "" && (op[0] == '~' || op[0] == '&' || op[0] == '#') && op[1..] != "*"
    ensures KeywordOf(Lower(op)) == NotAKeyword
  {
    var w := Lower(op);
    assert w[0] == op[0];
    if |op| == 2 {
      var c := op[1];
      assert op[1..] == [c];
      assert w[1] == LowerChar(c);
    }
  }

  lemma AddNew(s: seq<string>, i: nat)
    requires NoRepeats(s) && i < |s|
    ensures AddOnce(s[..i], s[i]) == s[..i + 1]
  {
  }

  lemma PasswordStep(env: Env, f: AclSpec.User, a: Access, rules: seq<string>, s: seq<string>, i: nat)
    requires EnvOk(env) && Shaped(f.perms) && PasswordsOk(s) && i < |s| && !a.noPass
    requires Replay(env, f, rules) == AclSpec.Ok(f.(access := a.(passwords := s[..i])))
    ensures Replay(env, f, rules + ["#" + s[i]]) == AclSpec.Ok(f.(access := a.(passwords := s[..i + 1])))
  {
    hide Replay, KeywordOf, Lower, TableOk, CategoriesOk, AddOnce;
    var op := "#" + s[i];
    assert op[1..] == s[i] && s[i] in s && IsHash(s[i]);
    PlainPattern(op);
    AddNew(s, i);
    ReplayNext(env, f, rules, op);
  }

  lemma KeyStep(env: Env, f: AclSpec.User, a: Access, rules: seq<string>, s: seq<string>, i: nat)
    requires EnvOk(env) && Shaped(f.perms) && PatternsOk(s) && i < |s| && !a.allKeys
    requires Replay(env, f, rules) == AclSpec.Ok(f.(access := a.(patterns := s[..i])))
    ensures Replay(env, f, rules + ["~" + s[i]]) == AclSpec.Ok(f.(access := a.(patterns := s[..i + 1])))
  {
    hide Replay, KeywordOf, Lower, TableOk, CategoriesOk, AddOnce, HasSpaces;
    var op := "~" + s[i];
    assert op[1..] == s[i] && s[i] in s;
    PlainPattern(op);
    AddNew(s, i);
    ReplayNext(env, f, rules, op);
  }

  lemma ChannelStep(env: Env, f: AclSpec.User, a: Access, rules: seq<string>, s: seq<string>, i: nat)
    requires EnvOk(env) && Shaped(f.perms) && PatternsOk(s) && i < |s| && !a.allChannels
    requires Replay(env, f, rules) == AclSpec.Ok(f.(access := a.(channels := s[..i])))
    ensures Replay(env, f, rules + ["&" + s[i]]) == AclSpec.Ok(f.(access := a.(channels := s[..i + 1])))
  {
    hide Replay, KeywordOf, Lower, TableOk, CategoriesOk, AddOnce, HasSpaces;
    var op := "&" + s[i];
    assert op[1..] == s[i] && s[i] in s;
    PlainPattern(op);
    AddNew(s, i);
    ReplayNext(env, f, rules, op);
  }

  class User {
    const bits: array<bool>
    var subs: seq<seq<string>>
    /** `allowed_subcommands` is allocated. */
    var table: bool
    var all: bool
    var access: Access

    ghost predicate Ok()
      reads this
    {
      bits.Length == BITS && |subs| == BITS && (!table ==> forall i :: 0 <= i < BITS ==> subs[i] == [])
    }

    ghost function Perms(): (p: Perms)
      requires Ok()
      reads this, bits
      ensures Shaped(p)
    {
      AclSpec.Perms(bits[..], subs, all)
    }

    ghost function Abs(): (u: AclSpec.User)
      requires Ok()
      reads this, bits
      ensures Shaped(u.perms)
    {
      AclSpec.User(Perms(), access)
    }

    /** A user with every field zero. */
    constructor ()
      ensures Ok() && fresh(bits)
      ensures Perms() == SetAll(false)
      ensures access == Access(false, false, false, false, false, false, false, [], [], [])
    {
      bits := new bool[BITS](_ => false);
      subs, table := seq(BITS, _ => []), false;
      all := false;
      access := Access(false, false, false, false, false, false, false, [], [], []);
    }

    /** `ACLCreateUser`. */
    constructor Create(env: Env)
      ensures Ok() && fresh(bits)
      ensures Abs() == Fresh(env)
    {
      bits := new bool[BITS](_ => false);
      subs, table := seq(BITS, _ => []), false;
      all := false;
      access := Access(false, true, false, env.allChannels, false, false, false, [], [], []);
    }

    method SetCommandBit(id: nat, value: bool)
      requires Ok()
      modifies this`all, bits
      ensures Ok() && Abs() == old(Abs()).(perms := SetBit(old(Perms()), id, value))
    {
      if id >= BITS {
        return;
      }
      bits[id] := value;
      if !value {
        all := false;
      }
    }

    method ResetSubsFor(id: nat)
      requires Ok()
      modifies this`subs
      ensures Ok() && Abs() == old(Abs()).(perms := ResetSubs(old(Perms()), id))
    {
      if table && id < |subs| {
        subs := subs[id := []];
      }
    }

    method FillBits(value: bool)
      requires Ok()
      modifies bits
      ensures bits[..] == seq(BITS, _ => value)
    {
      for i := 0 to bits.Length
        invariant forall j :: 0 <= j < i ==> bits[j] == value
      {
        bits[i] := value;
      }
    }

    method SetCategoryBits(env: Env, name: string, value: bool) returns (found: bool)
      requires Ok() && TableOk(env.commands)
      modifies this`subs, this`all, bits
      ensures Ok()
      ensures found == (FindCategory(env.categories, name) < |env.categories|)
      ensures Abs() == if found
        then old(Abs()).(perms := SetCategory(env.commands, old(Perms()), FindCategory(env.categories, name), value))
        else old(Abs())
    {
      hide SetBit, ResetSubs, TableOk;
      var j := CategoryIndex(env.categories, name);
      if j == |env.categories| {
        return false;
      }
      ghost var p := Perms();
      for k := 0 to |env.commands|
        invariant Ok() && access == old(access)
        invariant Perms() == SetCategory(env.commands[..k], p, j, value)
      {
        assert env.commands[..k + 1][..k] == env.commands[..k];
        var c := env.commands[k];
        if !c.isModule && j in c.categories {
          SetCommandBit(c.id, value);
          ResetSubsFor(c.id);
        }
      }
      assert env.commands[..|env.commands|] == env.commands;
      return true;
    }

    method AddAllowedSub(id: nat, sub: string)
      requires Ok() && id < BITS
      modifies this`subs, this`table
      ensures Ok() && Abs() == old(Abs()).(perms := AddSub(old(Perms()), id, sub))
    {
      table := true;
      var items := 0;
      while items < |subs[id]|
        invariant 0 <= items <= |subs[id]|
        invariant forall i :: 0 <= i < items ==> !SameName(subs[id][i], sub)
        invariant subs == old(subs)
      {
        if Lower(subs[id][items]) == Lower(sub) {
          return;
        }
        items := items + 1;
      }
      subs := subs[id := subs[id] + [sub]];
    }

    method Keywords(k: Keyword)
      requires Ok()
      modifies this, bits
      ensures Ok() && Abs() == KeywordRule(old(Abs()), k)
    {
      match k {
        case On => access := access.(enabled := true, disabled := false);
        case Off => access := access.(disabled := true, enabled := false);
        case SkipSanitize => access := access.(skipSanitize := true, sanitize := false);
        case Sanitize => access := access.(skipSanitize := false, sanitize := true);
        case AllKeys => access := access.(allKeys := true, patterns := []);
        case ResetKeys => access := access.(allKeys := false, patterns := []);
        case AllChannels => access := access.(allChannels := true, channels := []);
        case ResetChannels => access := access.(allChannels := false, channels := []);
        case AllCommands =>
          FillBits(true);
          all := true;
          subs, table := seq(BITS, _ => []), false;
        case NoCommands =>
          FillBits(false);
          all := false;
          subs, table := seq(BITS, _ => []), false;
        case NoPass => access := access.(noPass := true, passwords := []);
        case ResetPass => access := access.(noPass := false, passwords := []);
        case NotAKeyword =>
      }
    }

    method Commands(env: Env, op: string) returns (err: Option<Error>)
      requires Ok() && TableOk(env.commands)
      requires op != "" && (op[0] == '+' || op[0] == '-')
      modifies this`subs, this`table, this`all, bits
      ensures Ok() && Matches(CommandRule(env, old(Abs()), op), err, old(Abs()), Abs())
    {
      if op[0] == '+' && !(|op| > 1 && op[1] == '@') {
        err := Allow(env, op);
      } else if op[0] == '-' && !(|op| > 1 && op[1] == '@') {
        hide SetBit, ResetSubs, Lower;
        var k := CommandIndex(env.commands, op[1..]);
        if k == |env.commands| {
          return Some(ENOENT);
        }
        SetCommandBit(env.commands[k].id, false);
        ResetSubsFor(env.commands[k].id);
        err := None;
      } else {
        hide SetCategory, Lower;
        var found := SetCategoryBits(env, op[2..], op[0] == '+');
        err := if found then None else Some(ENOENT);
      }
    }

    /** `+command` and `+command|subcommand`. */
    method Allow(env: Env, op: string) returns (err: Option<Error>)
      requires Ok() && TableOk(env.commands)
      requires op != "" && op[0] == '+' && !(|op| > 1 && op[1] == '@')
      modifies this`subs, this`table, this`all, bits
      ensures Ok() && Matches(CommandRule(env, old(Abs()), op), err, old(Abs()), Abs())
    {
      hide SetBit, ResetSubs, AddSub, Lower;
      var name := op[1..];
      var bar := BarIndex(name);
      if bar == |name| {
        var k := CommandIndex(env.commands, name);
        if k == |env.commands| {
          return Some(ENOENT);
        }
        SetCommandBit(env.commands[k].id, true);
        ResetSubsFor(env.commands[k].id);
      } else {
        var k := CommandIndex(env.commands, name[..bar]);
        var sub := name[bar + 1..];
        if k == |env.commands| {
          return Some(ENOENT);
        }
        if sub == "" {
          return Some(EINVAL);
        }
        assert CommandOk(env.commands[k]);
        if !bits[env.commands[k].id] {
          AddAllowedSub(env.commands[k].id, sub);
        }
      }
      err := None;
    }

    method Passwords(env: Env, op: string) returns (err: Option<Error>)
      requires Ok() && op != ""
      requires op[0] == '>' || op[0] == '#' || op[0] == '<' || op[0] == '!'
      modifies this`access
      ensures Ok() && Matches(PasswordRule(env, old(Abs()), op), err, old(Abs()), Abs())
    {
      if (op[0] == '#' || op[0] == '!') && !IsHash(op[1..]) {
        return Some(EBADMSG);
      }
      var pass := if op[0] == '>' || op[0] == '<' then env.hash(op[1..]) else op[1..];
      var i := SearchKey(access.passwords, pass);
      if op[0] == '>' || op[0] == '#' {
        if i == |access.passwords| {
          access := access.(passwords := access.passwords + [pass]);
        }
        access := access.(noPass := false);
      } else if i < |access.passwords| {
        WithoutAt(access.passwords, pass, i);
        access := access.(passwords := access.passwords[..i] + access.passwords[i + 1..]);
      } else {
        return Some(ENODEV);
      }
      err := None;
    }

    method Patterns(op: string) returns (err: Option<Error>)
      requires Ok() && op != "" && (op[0] == '~' || op[0] == '&')
      modifies this`access
      ensures Ok() && Matches(if op[0] == '~' then KeyRule(old(Abs()), op) else ChannelRule(old(Abs()), op),
                              err, old(Abs()), Abs())
    {
      hide HasSpaces, KeyRule, ChannelRule;
      if op[0] == '~' {
        err := KeyPattern(op);
      } else {
        err := ChannelPattern(op);
      }
    }

    method KeyPattern(op: string) returns (err: Option<Error>)
      requires Ok() && op != ""
      modifies this`access
      ensures Ok() && Matches(KeyRule(old(Abs()), op), err, old(Abs()), Abs())
    {
      hide HasSpaces;
      var pattern := op[1..];
      if access.allKeys {
        return Some(EEXIST);
      }
      if HasSpaces(pattern) {
        return Some(EINVAL);
      }
      var i := SearchKey(access.patterns, pattern);
      if i == |access.patterns| {
        access := access.(patterns := access.patterns + [pattern]);
      }
      access := access.(allKeys := false);
      err := None;
    }

    method ChannelPattern(op: string) returns (err: Option<Error>)
      requires Ok() && op != ""
      modifies this`access
      ensures Ok() && Matches(ChannelRule(old(Abs()), op), err, old(Abs()), Abs())
    {
      hide HasSpaces;
      var pattern := op[1..];
      if access.allChannels {
        return Some(EISDIR);
      }
      if HasSpaces(pattern) {
        return Some(EINVAL);
      }
      var i := SearchKey(access.channels, pattern);
      if i == |access.channels| {
        access := access.(channels := access.channels + [pattern]);
      }
      access := access.(allChannels := false);
      err := None;
    }

    /** `ACLSetUser`. */
    method SetUser(env: Env, op: string) returns (err: Option<Error>)
      requires Ok() && TableOk(env.commands)
      modifies this, bits
      ensures Ok() && Matches(Apply(env, old(Abs()), op), err, old(Abs()), Abs())
    {
      hide CommandRule, PasswordRule, KeyRule, ChannelRule, Lower, KeywordOf, KeywordRule, TableOk;
      if op == "" {
        return None;
      }
      var k := KeywordOf(Lower(op));
      if k != NotAKeyword {
        Keywords(k);
        err := None;
      } else if op[0] == '>' || op[0] == '#' || op[0] == '<' || op[0] == '!' {
        err := Passwords(env, op);
      } else if op[0] == '~' || op[0] == '&' {
        err := Patterns(op);
      } else if op[0] == '+' || op[0] == '-' {
        err := Commands(env, op);
      } else if Lower(op) == "reset" {
        Reset(env);
        err := None;
      } else {
        err := Some(EINVAL);
      }
    }

    /** `reset`, as the sequence of rules it stands for. */
    method Reset(env: Env)
      requires Ok()
      modifies this, bits
      ensures Ok() && Abs() == AclSpec.User(SetAll(false), ResetAccess(env, old(access)))
    {
      Keywords(ResetPass);
      Keywords(ResetKeys);
      Keywords(ResetChannels);
      if env.allChannels {
        Keywords(AllChannels);
      }
      Keywords(Off);
      Keywords(Sanitize);
      Keywords(NoCommands);
    }

    // ----------------------------------------------------------------
    // Describing a user

    /** `ACLCountCategoryBitsForUser`. */
    method CountCategory(env: Env, category: nat) returns (on: nat, off: nat)
      requires Ok()
      ensures on == Count(env.commands, Perms(), category, true)
      ensures off == Count(env.commands, Perms(), category, false)
    {
      on, off := 0, 0;
      for k := 0 to |env.commands|
        invariant on == Count(env.commands[..k], Perms(), category, true)
        invariant off == Count(env.commands[..k], Perms(), category, false)
      {
        var c := env.commands[k];
        assert env.commands[..k + 1][..k] == env.commands[..k];
        if category in c.categories {
          if c.id < BITS && bits[c.id] {
            on := on + 1;
          } else {
            off := off + 1;
          }
        }
      }
      assert env.commands[..|env.commands|] == env.commands;
    }

    /** One pass over the categories: the best one not applied yet, or -1. */
    method BestCategory(env: Env, additive: bool, applied: seq<bool>) returns (best: int)
      requires Ok() && TableOk(env.commands) && |applied| == |env.categories|
      ensures IsBest(env, Perms(), additive, applied, |applied|, best)
    {
      hide Count;
      best := -1;
      var minDiff, maxSame := 0x7fffffff, 0;
      for j := 0 to |env.categories|
        invariant IsBest(env, Perms(), additive, applied, j, best)
        invariant best == -1 ==> minDiff == 0x7fffffff && maxSame == 0
        invariant best >= 0 ==>
          minDiff == Diff(env, Perms(), additive, best) && maxSame == Same(env, Perms(), additive, best)
      {
        if applied[j] {
          continue;
        }
        var on, off := CountCategory(env, j);
        CountBound(env.commands, Perms(), j, true);
        CountBound(env.commands, Perms(), j, false);
        var diff := if additive then off else on;
        var same := if additive then on else off;
        if same > diff && (diff < minDiff || (diff == minDiff && same > maxSame)) {
          best, minDiff, maxSame := j, diff, same;
        }
      }
    }

    /** The category rules of `ACLDescribeUserCommandRules`, chosen greedily. `fake` follows the
        rules emitted so far, `temp` is this user with the inverse of each of them. */
    method DescribeCategories(env: Env, fake: User, additive: bool, first: seq<string>, ghost base: AclSpec.User)
      returns (rules: seq<string>)
      requires Ok() && EnvOk(env) && fake.Ok() && fake != this && fake.bits != bits
      requires Shaped(base.perms) && PermsOk(env.commands, fake.Perms())
      requires Replay(env, base, first) == AclSpec.Ok(base.(perms := fake.Perms()))
      requires forall i :: 0 <= i < BITS ==> fake.subs[i] == []
      modifies fake, fake.bits
      ensures fake.Ok() && PermsOk(env.commands, fake.Perms())
      ensures first <= rules
      ensures Replay(env, base, rules) == AclSpec.Ok(base.(perms := fake.Perms()))
      ensures fake.bits[FUTURE] == old(fake.bits[FUTURE])
      ensures forall i :: 0 <= i < BITS ==> fake.subs[i] == []
    {
      hide Replay, PermsOk, TableOk, CategoriesOk, Apply, SetCategory, IsBest;
      var temp := new User();
      temp.CopyBits(this);
      var applied := seq(|env.categories|, _ => false);
      ghost var left := |env.categories|;
      rules := first;
      LeftAll(applied);
      while true
        invariant temp.Ok() && fresh(temp) && fresh(temp.bits) && fake.Ok()
        invariant |applied| == |env.categories| && left == Left(applied)
        invariant first <= rules
        invariant PermsOk(env.commands, fake.Perms())
        invariant Replay(env, base, rules) == AclSpec.Ok(base.(perms := fake.Perms()))
        invariant fake.bits[FUTURE] == old(fake.bits[FUTURE])
        invariant forall i :: 0 <= i < BITS ==> fake.subs[i] == []
        decreases left
      {
        var best := temp.BestCategory(env, additive, applied);
        if best == -1 {
          break;
        }
        BestIsNew(env, temp.Perms(), additive, applied, best);
        var op := CategoryToken(env.categories[best], additive);
        var inverse := CategoryToken(env.categories[best], !additive);
        CategoryStep(env, base, fake.Abs(), rules, best, additive);
        var _ := fake.SetUser(env, op);
        var _ := temp.SetUser(env, inverse);
        rules := rules + [op];
        LeftLess(applied, best);
        applied := applied[best := true];
        left := left - 1;
      }
    }

    method CopyBits(from: User)
      requires Ok() && from.Ok() && from != this && from.bits != bits
      modifies bits
      ensures bits[..] == from.bits[..]
    {
      for i := 0 to BITS
        invariant forall j :: 0 <= j < i ==> bits[j] == from.bits[j]
      {
        bits[i] := from.bits[i];
      }
    }

    /** The single-command rules of `ACLDescribeUserCommandRules`. */
    method DescribeCommands(env: Env, fake: User, first: seq<string>, ghost base: AclSpec.User)
      returns (rules: seq<string>)
      requires Ok() && EnvOk(env) && PermsOk(env.commands, Perms()) && fake.Ok() && fake != this && fake.bits != bits
      requires Shaped(base.perms) && PermsOk(env.commands, fake.Perms())
      requires Replay(env, base, first) == AclSpec.Ok(base.(perms := fake.Perms()))
      requires fake.bits[FUTURE] == bits[FUTURE] && forall i :: 0 <= i < BITS ==> fake.subs[i] == []
      modifies fake, fake.bits
      ensures fake.Ok() && fake.bits[..] == bits[..]
      ensures first <= rules
      ensures var r := Replay(env, base, rules);
        && r.Ok? && r.user.access == base.access && PermsOk(env.commands, r.user.perms)
        && r.user.perms.bits == bits[..] && r.user.perms.subs == subs
    {
      hide Replay, PermsOk, TableOk, CategoriesOk, Apply, SetCommand, SetBit, AddSub, Rebuilt, Adding, Bit;
      var c := env.commands;
      ghost var u := Perms();
      ghost var r := fake.Perms();
      StartRebuild(c, u, r);
      rules := first;
      for k := 0 to |c|
        invariant fake.Ok() && fake.bits[..] == r.bits
        invariant Shaped(r) && Rebuilt(c, u, r, k)
        invariant first <= rules && Replay(env, base, rules) == AclSpec.Ok(base.(perms := r))
      {
        FixBit(c, u, r, k);
        var id := c[k].id;
        var userBit := bits[id];
        if userBit != fake.bits[id] {
          CommandStep(env, base, r, rules, k, userBit);
          rules := rules + [CommandToken(c[k], userBit)];
          SetBitBits(fake.Perms(), id, userBit);
          fake.SetCommandBit(id, userBit);
          r := SetCommand(r, id, userBit);
        }
        if userBit {
          SetMeansNoSubs(c, u, id);
        } else {
          for m := 0 to |subs[id]|
            invariant fake.Ok() && Shaped(r) && Adding(c, u, r, k, m) && fake.bits[..] == r.bits
            invariant first <= rules && Replay(env, base, rules) == AclSpec.Ok(base.(perms := r))
          {
            FixSub(c, u, r, k, m);
            SubStep(env, base, r, rules, k, subs[id][m]);
            rules := rules + [SubToken(c[k], subs[id][m])];
            r := AddSub(r, id, subs[id][m]);
          }
        }
        EndOfCommand(c, u, r, k, |subs[id]|);
      }
      RebuiltOk(c, u, r);
      EndOfRebuild(c, u, r);
    }

    /** `ACLDescribeUserCommandRules`: applied to any user, the rules rebuild this one's bitmap and
        subcommands; the bitmaps never differ at the end. */
    method DescribeCommandRules(env: Env, ghost base: AclSpec.User) returns (rules: seq<string>, mismatch: bool)
      requires Ok() && EnvOk(env) && PermsOk(env.commands, Perms()) && Shaped(base.perms)
      ensures !mismatch
      ensures rules != [] && rules[0] == if bits[FUTURE] then "+@all" else "-@all"
      ensures var r := Replay(env, base, rules);
        && r.Ok? && r.user.access == base.access && PermsOk(env.commands, r.user.perms)
        && r.user.perms.bits == bits[..] && r.user.perms.subs == subs
    {
      hide Replay, PermsOk, TableOk, CategoriesOk, Apply;
      var fake := new User();
      var additive := !bits[FUTURE];
      FirstStep(env, base, fake.Abs(), !additive);
      rules := [CategoryToken("all", !additive)];
      var _ := fake.SetUser(env, CategoryToken("all", !additive));
      rules := DescribeCategories(env, fake, additive, rules, base);
      rules := DescribeCommands(env, fake, rules, base);
      var same := fake.SameBits(this);
      mismatch := !same;
    }

    /** `memcmp` of the two bitmaps. */
    method SameBits(other: User) returns (same: bool)
      requires Ok() && other.Ok()
      ensures same <==> bits[..] == other.bits[..]
    {
      for i := 0 to BITS
        invariant forall j :: 0 <= j < i ==> bits[j] == other.bits[j]
      {
        if bits[i] != other.bits[i] {
          assert bits[..][i] != other.bits[..][i];
          return false;
        }
      }
      return true;
    }

    /** The command part of `ACLCheckCommandPerm`. A number past the bitmap must not index an allocated table. */
    method CheckCommand(c: Command, argv: seq<string>) returns (allowed: bool)
      requires Ok() && (c.id < BITS || all || c.noAuth || |argv| < 2 || !table)
      ensures allowed == MayRun(Perms(), c, argv)
    {
      if all || c.noAuth || (c.id < BITS && bits[c.id]) {
        return true;
      }
      if |argv| < 2 || !table {
        return false;
      }
      var i := 0;
      while i < |subs[c.id]|
        invariant 0 <= i <= |subs[c.id]|
        invariant forall j :: 0 <= j < i ==> !SameName(subs[c.id][j], argv[1])
      {
        if Lower(argv[1]) == Lower(subs[c.id][i]) {
          return true;
        }
        i := i + 1;
      }
      return false;
    }

    method DescribeFlags(env: Env, ghost f: AclSpec.User) returns (rules: seq<string>)
      requires EnvOk(env) && AccessOk(access) && Shaped(f.perms) && f.access == Fresh(env).access
      ensures Replay(env, f, rules) == AclSpec.Ok(f.(access := f.access.(enabled := access.enabled,
        disabled := access.disabled, noPass := access.noPass, skipSanitize := access.skipSanitize,
        sanitize := access.sanitize)))
    {
      hide Replay, TableOk, CategoriesOk, Apply, Lower, KeywordOf, PatternsOk, PasswordsOk, SetAll;
      ReplayNone(env, f);
      rules := Emit(env, f, f.access, [], access.enabled, On);
      ghost var a1 := Became(f, f.access, access.enabled, On);
      rules := Emit(env, f, a1, rules, access.disabled, Off);
      ghost var a2 := Became(f, a1, access.disabled, Off);
      rules := Emit(env, f, a2, rules, access.noPass, NoPass);
      ghost var a3 := Became(f, a2, access.noPass, NoPass);
      rules := Emit(env, f, a3, rules, access.skipSanitize, SkipSanitize);
      ghost var a4 := Became(f, a3, access.skipSanitize, SkipSanitize);
      rules := Emit(env, f, a4, rules, access.sanitize, Sanitize);
    }

    method DescribePasswords(env: Env, ghost f: AclSpec.User, ghost a: Access, first: seq<string>)
      returns (rules: seq<string>)
      requires EnvOk(env) && AccessOk(access) && Shaped(f.perms) && a.noPass == access.noPass && a.passwords == []
      requires Replay(env, f, first) == AclSpec.Ok(f.(access := a))
      ensures Replay(env, f, rules) == AclSpec.Ok(f.(access := a.(passwords := access.passwords)))
    {
      hide Replay, TableOk, CategoriesOk, Apply, Lower, KeywordOf, AddOnce, PatternsOk, PasswordsOk;
      rules := first;
      for i := 0 to |access.passwords|
        invariant Replay(env, f, rules) == AclSpec.Ok(f.(access := a.(passwords := access.passwords[..i])))
      {
        PasswordStep(env, f, a, rules, access.passwords, i);
        rules := rules + ["#" + access.passwords[i]];
      }
      assert access.passwords[..|access.passwords|] == access.passwords;
    }

    /** The flags, passwords, key and channel patterns part of `ACLDescribeUser`. */
    method DescribeAccess(env: Env) returns (rules: seq<string>)
      requires EnvOk(env) && AccessOk(access)
      ensures Replay(env, Fresh(env), rules) == AclSpec.Ok(Fresh(env).(access := access))
    {
      hide Replay, TableOk, CategoriesOk, PatternsOk, PasswordsOk;
      ghost var f := Fresh(env);
      rules := DescribeFlags(env, f);
      ghost var a := f.access.(enabled := access.enabled, disabled := access.disabled, noPass := access.noPass,
                               skipSanitize := access.skipSanitize, sanitize := access.sanitize);
      rules := DescribePasswords(env, f, a, rules);
      ghost var b := a.(passwords := access.passwords);
      rules := DescribeKeys(env, f, b, rules);
      rules := DescribeChannels(env, f, b.(allKeys := access.allKeys, patterns := access.patterns), rules);
    }

    method DescribeKeys(env: Env, ghost f: AclSpec.User, ghost a: Access, first: seq<string>)
      returns (rules: seq<string>)
      requires EnvOk(env) && AccessOk(access) && Shaped(f.perms) && !a.allKeys && a.patterns == []
      requires Replay(env, f, first) == AclSpec.Ok(f.(access := a))
      ensures Replay(env, f, rules)
           == AclSpec.Ok(f.(access := a.(allKeys := access.allKeys, patterns := access.patterns)))
    {
      hide Replay, TableOk, CategoriesOk, Apply, Lower, KeywordOf, AddOnce, PatternsOk, PasswordsOk;
      rules := first;
      if access.allKeys {
        rules := Emit(env, f, a, rules, true, AllKeys);
      } else {
        for i := 0 to |access.patterns|
          invariant Replay(env, f, rules) == AclSpec.Ok(f.(access := a.(patterns := access.patterns[..i])))
        {
          KeyStep(env, f, a, rules, access.patterns, i);
          rules := rules + ["~" + access.patterns[i]];
        }
        assert access.patterns[..|access.patterns|] == access.patterns;
      }
    }

    method DescribeChannels(env: Env, ghost f: AclSpec.User, ghost a: Access, first: seq<string>)
      returns (rules: seq<string>)
      requires EnvOk(env) && AccessOk(access) && Shaped(f.perms) && a.channels == []
      requires Replay(env, f, first) == AclSpec.Ok(f.(access := a))
      ensures Replay(env, f, rules)
           == AclSpec.Ok(f.(access := a.(allChannels := access.allChannels, channels := access.channels)))
    {
      hide Replay, TableOk, CategoriesOk, Apply, Lower, KeywordOf, AddOnce, PatternsOk, PasswordsOk;
      rules := first;
      if access.allChannels {
        rules := Emit(env, f, a, rules, true, AllChannels);
      } else {
        rules := Emit(env, f, a, rules, true, ResetChannels);
        ghost var b := a.(allChannels := false);
        for i := 0 to |access.channels|
          invariant Replay(env, f, rules) == AclSpec.Ok(f.(access := b.(channels := access.channels[..i])))
        {
          ChannelStep(env, f, b, rules, access.channels, i);
          rules := rules + ["&" + access.channels[i]];
        }
        assert access.channels[..|access.channels|] == access.channels;
      }
    }

    /** `ACLDescribeUser`: the rules rebuild this user from a new one. */
    method Describe(env: Env) returns (rules: seq<string>)
      requires Ok() && EnvOk(env) && UserOk(env, Abs())
      ensures var r := Replay(env, Fresh(env), rules);
        && r.Ok? && r.user.access == access && r.user.perms.bits == bits[..] && r.user.perms.subs == subs
        && forall c: Command, argv {:trigger MayRun(r.user.perms, c, argv)} ::
             c.id < BITS ==> MayRun(r.user.perms, c, argv) == MayRun(Perms(), c, argv)
    {
      hide Replay, PermsOk, TableOk, CategoriesOk, AccessOk, Apply, MayRun;
      var head := DescribeAccess(env);
      ghost var base := Fresh(env).(access := access);
      var tail, _ := DescribeCommandRules(env, base);
      ReplayAppend(env, Fresh(env), head, tail);
      rules := head + tail;
      ghost var p := Replay(env, Fresh(env), rules).user.perms;
      forall c: Command, argv | c.id < BITS ensures MayRun(p, c, argv) == MayRun(Perms(), c, argv) {
        SamePermissions(env.commands, p, Perms(), c, argv);
      }
    }
  }
}
