/** ACL users as values: what every rule of `ACLSetUser` does to a user, and what stays true
    of every user built from rules. */
module AclSpec {
  import opened Names

  /** The size of the command bitmap. */
  const BITS := 1024

  /** The reserved bit: the user may run commands that do not exist yet. */
  const FUTURE := 1023

  const CATEGORIES: seq<string> := [
    "keyspace", "read", "write", "set", "sortedset", "list", "hash", "string", "bitmap",
    "hyperloglog", "geo", "stream", "pubsub", "admin", "fast", "slow", "blocking", "dangerous",
    "connection", "transaction", "scripting"]

  /** An entry of the original command table; `categories` are positions in the list of categories. */
  datatype Command = Command(name: string, id: nat, categories: set<nat>, isModule: bool, noAuth: bool)

  /** What the server gives: the command table in its iteration order, the category names, the
      password hash, and whether new users may use all channels. */
  datatype Env = Env(commands: seq<Command>, categories: seq<string>, hash: string -> string, allChannels: bool)

  datatype Error = EINVAL | ENOENT | EEXIST | EISDIR | ENODEV | EBADMSG

  datatype Outcome = Ok(user: User) | Err(error: Error)

  /** The command part of a user; an empty list of subcommands stands for a null entry. */
  datatype Perms = Perms(bits: seq<bool>, subs: seq<seq<string>>, all: bool)

  /** Everything else. */
  datatype Access = Access(enabled: bool, disabled: bool, allKeys: bool, allChannels: bool, noPass: bool,
                           skipSanitize: bool, sanitize: bool,
                           passwords: seq<string>, patterns: seq<string>, channels: seq<string>)

  datatype User = User(perms: Perms, access: Access)

  // ------------------------------------------------------------------
  // Strings

  predicate IsSpace(c: char) {
    c == ' ' || 9 as char <= c <= 13 as char || c == 0 as char
  }

  predicate HasSpaces(s: string) {
    exists i :: 0 <= i < |s| && IsSpace(s[i])
  }

  predicate IsHash(s: string) {
    |s| == 64 && forall i :: 0 <= i < |s| ==> 'a' <= s[i] <= 'f' || '0' <= s[i] <= '9'
  }

  /** Position of the first `|`, or the length. */
  function Bar(s: string): (i: nat)
    ensures i <= |s|
    ensures forall j :: 0 <= j < i ==> s[j] != '|'
    ensures i < |s| ==> s[i] == '|'
  {
    if s == "" || s[0] == '|' then 0 else 1 + Bar(s[1..])
  }

  // ------------------------------------------------------------------
  // Lookups

  /** The first command with the given name, or the length of the table. */
  function Find(commands: seq<Command>, name: string): (k: nat)
    ensures k <= |commands|
    ensures k < |commands| ==> SameName(commands[k].name, name)
    ensures forall j :: 0 <= j < k ==> !SameName(commands[j].name, name)
  {
    if commands == [] || SameName(commands[0].name, name) then 0 else 1 + Find(commands[1..], name)
  }

  function FindCategory(names: seq<string>, name: string): (k: nat)
    ensures k <= |names|
    ensures k < |names| ==> SameName(name, names[k])
    ensures forall j :: 0 <= j < k ==> !SameName(name, names[j])
  {
    if names == [] || SameName(name, names[0]) then 0 else 1 + FindCategory(names[1..], name)
  }

  predicate Has(commands: seq<Command>, id: nat) {
    exists k :: 0 <= k < |commands| && commands[k].id == id
  }

  /** A table whose names and numbers are unambiguous and fit the bitmap. */
  ghost predicate TableOk(commands: seq<Command>) {
    && (forall k :: 0 <= k < |commands| ==> CommandOk(commands[k]))
    && (forall j, k :: 0 <= j < k < |commands| ==>
          commands[j].id != commands[k].id && !SameName(commands[j].name, commands[k].name))
    && |commands| < BITS
  }

  predicate CommandOk(c: Command) {
    && c.id < FUTURE
    && c.name != "" && c.name[0] != '@' && Bar(c.name) == |c.name|
  }

  ghost predicate CategoriesOk(names: seq<string>) {
    && (forall j, k :: 0 <= j < k < |names| ==> !SameName(names[j], names[k]))
    && forall j :: 0 <= j < |names| ==> !SameName(names[j], "all")
  }

  ghost predicate EnvOk(env: Env) {
    && TableOk(env.commands)
    && CategoriesOk(env.categories)
    && forall s: string {:trigger env.hash(s)} :: IsHash(env.hash(s))
  }

  // ------------------------------------------------------------------
  // Elementary changes

  ghost predicate Shaped(p: Perms) {
    |p.bits| == BITS && |p.subs| == BITS
  }

  /** `ACLGetUserCommandBit`. */
  predicate Bit(p: Perms, id: nat) {
    id < |p.bits| && p.bits[id]
  }

  /** `ACLSetUserCommandBit`. */
  function SetBit(p: Perms, id: nat, value: bool): Perms {
    if id >= |p.bits| then p else p.(bits := p.bits[id := value], all := p.all && value)
  }

  function ResetSubs(p: Perms, id: nat): Perms {
    if id >= |p.subs| then p else p.(subs := p.subs[id := []])
  }

  function SetCommand(p: Perms, id: nat, value: bool): Perms {
    ResetSubs(SetBit(p, id, value), id)
  }

  /** `ACLSetUserCommandBitsForCategory` over the commands seen so far. */
  function SetCategory(commands: seq<Command>, p: Perms, category: nat, value: bool): Perms {
    if commands == [] then p else
    var n := |commands| - 1;
    var q := SetCategory(commands[..n], p, category, value);
    if !commands[n].isModule && category in commands[n].categories then SetCommand(q, commands[n].id, value)
    else q
  }

  predicate Lists(subs: seq<string>, sub: string) {
    exists i :: 0 <= i < |subs| && SameName(subs[i], sub)
  }

  /** `ACLAddAllowedSubcommand`. */
  function AddSub(p: Perms, id: nat, sub: string): Perms
    requires id < |p.subs|
  {
    if Lists(p.subs[id], sub) then p else p.(subs := p.subs[id := p.subs[id] + [sub]])
  }

  /** `+@all` and `-@all`. */
  function SetAll(value: bool): Perms {
    Perms(seq(BITS, _ => value), seq(BITS, _ => []), value)
  }

  // ------------------------------------------------------------------
  // ACLSetUser

  /** The rules about commands, for an `op` that starts with `+` or `-` and is not `+@all` or `-@all`. */
  function CommandRule(env: Env, u: User, op: string): Outcome
    requires op != "" && (op[0] == '+' || op[0] == '-')
    requires Shaped(u.perms) && TableOk(env.commands)
  {
    if op[0] == '+' && !(|op| > 1 && op[1] == '@') then
      var name := op[1..];
      if Bar(name) == |name| then
        var k := Find(env.commands, name);
        if k == |env.commands| then Err(ENOENT)
        else Ok(u.(perms := SetCommand(u.perms, env.commands[k].id, true)))
      else
        var k := Find(env.commands, name[..Bar(name)]);
        var sub := name[Bar(name) + 1..];
        if k == |env.commands| then Err(ENOENT)
        else if sub == "" then Err(EINVAL)
        else if Bit(u.perms, env.commands[k].id) then Ok(u)
        else Ok(u.(perms := AddSub(u.perms, env.commands[k].id, sub)))
    else if op[0] == '-' && !(|op| > 1 && op[1] == '@') then
      var k := Find(env.commands, op[1..]);
      if k == |env.commands| then Err(ENOENT)
      else Ok(u.(perms := SetCommand(u.perms, env.commands[k].id, false)))
    else
      var j := FindCategory(env.categories, op[2..]);
      if j == |env.categories| then Err(ENOENT)
      else Ok(u.(perms := SetCategory(env.commands, u.perms, j, op[0] == '+')))
  }

  function AddOnce(s: seq<string>, x: string): seq<string> {
    if x in s then s else s + [x]
  }

  /** `listSearchKey` finds the first match and `listDelNode` unlinks it. */
  function Without(s: seq<string>, x: string): seq<string> {
    if s == [] then [] else if s[0] == x then s[1..] else [s[0]] + Without(s[1..], x)
  }

  function PasswordRule(env: Env, u: User, op: string): Outcome
    requires op != ""
  {
    if (op[0] == '#' || op[0] == '!') && !IsHash(op[1..]) then Err(EBADMSG) else
    var pass := if op[0] == '>' || op[0] == '<' then env.hash(op[1..]) else op[1..];
    var a := u.access;
    if op[0] == '>' || op[0] == '#' then
      Ok(u.(access := a.(passwords := AddOnce(a.passwords, pass), noPass := false)))
    else if pass in a.passwords then
      Ok(u.(access := a.(passwords := Without(a.passwords, pass))))
    else Err(ENODEV)
  }

  function KeyRule(u: User, op: string): Outcome
    requires op != ""
  {
    if u.access.allKeys then Err(EEXIST)
    else if HasSpaces(op[1..]) then Err(EINVAL)
    else Ok(u.(access := u.access.(patterns := AddOnce(u.access.patterns, op[1..]), allKeys := false)))
  }

  function ChannelRule(u: User, op: string): Outcome
    requires op != ""
  {
    if u.access.allChannels then Err(EISDIR)
    else if HasSpaces(op[1..]) then Err(EINVAL)
    else Ok(u.(access := u.access.(channels := AddOnce(u.access.channels, op[1..]), allChannels := false)))
  }

  /** `reset`. */
  function ResetAccess(env: Env, a: Access): Access {
    a.(noPass := false, passwords := [], allKeys := false, patterns := [], channels := [],
       allChannels := env.allChannels, disabled := true, enabled := false,
       skipSanitize := false, sanitize := true)
  }

  datatype Keyword =
    | On | Off | SkipSanitize | Sanitize | AllKeys | ResetKeys | AllChannels | ResetChannels
    | AllCommands | NoCommands | NoPass | ResetPass | NotAKeyword

  function KeywordOf(w: string): Keyword {
    if w == "on" then On
    else if w == "off" then Off
    else if w == "skip-sanitize-payload" then SkipSanitize
    else if w == "sanitize-payload" then Sanitize
    else if w == "allkeys" || w == "~*" then AllKeys
    else if w == "resetkeys" then ResetKeys
    else if w == "allchannels" || w == "&*" then AllChannels
    else if w == "resetchannels" then ResetChannels
    else if w == "allcommands" || w == "+@all" then AllCommands
    else if w == "nocommands" || w == "-@all" then NoCommands
    else if w == "nopass" then NoPass
    else if w == "resetpass" then ResetPass
    else NotAKeyword
  }

  function KeywordRule(u: User, k: Keyword): User {
    var a := u.access;
    match k
    case On => u.(access := a.(enabled := true, disabled := false))
    case Off => u.(access := a.(disabled := true, enabled := false))
    case SkipSanitize => u.(access := a.(skipSanitize := true, sanitize := false))
    case Sanitize => u.(access := a.(skipSanitize := false, sanitize := true))
    case AllKeys => u.(access := a.(allKeys := true, patterns := []))
    case ResetKeys => u.(access := a.(allKeys := false, patterns := []))
    case AllChannels => u.(access := a.(allChannels := true, channels := []))
    case ResetChannels => u.(access := a.(allChannels := false, channels := []))
    case AllCommands => u.(perms := SetAll(true))
    case NoCommands => u.(perms := SetAll(false))
    case NoPass => u.(access := a.(noPass := true, passwords := []))
    case ResetPass => u.(access := a.(noPass := false, passwords := []))
    case NotAKeyword => u
  }

  /** `ACLSetUser`. */
  function Apply(env: Env, u: User, op: string): Outcome
    requires Shaped(u.perms) && TableOk(env.commands)
  {
    if op == "" then Ok(u) else
    var k := KeywordOf(Lower(op));
    if k != NotAKeyword then Ok(KeywordRule(u, k))
    else if op[0] == '>' || op[0] == '#' || op[0] == '<' || op[0] == '!' then PasswordRule(env, u, op)
    else if op[0] == '~' then KeyRule(u, op)
    else if op[0] == '&' then ChannelRule(u, op)
    else if op[0] == '+' || op[0] == '-' then CommandRule(env, u, op)
    else if Lower(op) == "reset" then Ok(User(SetAll(false), ResetAccess(env, u.access)))
    else Err(EINVAL)
  }

  /** A new user. */
  function Fresh(env: Env): User {
    User(SetAll(false), Access(false, true, false, env.allChannels, false, false, false, [], [], []))
  }

  // ------------------------------------------------------------------
  // What every user satisfies

  ghost predicate Distinct(subs: seq<string>) {
    && (forall i :: 0 <= i < |subs| ==> subs[i] != "")
    && forall i, j :: 0 <= i < j < |subs| ==> !SameName(subs[i], subs[j])
  }

  ghost predicate PermsOk(commands: seq<Command>, p: Perms) {
    && Shaped(p)
    && (forall i :: 0 <= i < BITS && !Has(commands, i) ==> p.bits[i] == p.bits[FUTURE] && p.subs[i] == [])
    && (forall i :: 0 <= i < BITS && p.bits[i] ==> p.subs[i] == [])
    && (forall i :: 0 <= i < BITS ==> Distinct(p.subs[i]))
    && (p.all ==> forall i :: 0 <= i < BITS ==> p.bits[i])
  }

  ghost predicate NoRepeats(s: seq<string>) {
    forall i, j :: 0 <= i < j < |s| ==> s[i] != s[j]
  }

  ghost predicate PatternsOk(s: seq<string>) {
    NoRepeats(s) && forall x :: x in s ==> !HasSpaces(x) && x != "*"
  }

  ghost predicate PasswordsOk(s: seq<string>) {
    NoRepeats(s) && forall x :: x in s ==> IsHash(x)
  }

  ghost predicate AccessOk(a: Access) {
    && a.enabled == !a.disabled
    && !(a.skipSanitize && a.sanitize)
    && (a.allKeys ==> a.patterns == [])
    && (a.allChannels ==> a.channels == [])
    && (a.noPass ==> a.passwords == [])
    && PasswordsOk(a.passwords)
    && PatternsOk(a.patterns) && PatternsOk(a.channels)
  }

  ghost predicate UserOk(env: Env, u: User) {
    PermsOk(env.commands, u.perms) && AccessOk(u.access)
  }

  lemma SetCommandOk(commands: seq<Command>, p: Perms, k: nat, value: bool)
    requires TableOk(commands) && PermsOk(commands, p) && k < |commands|
    ensures PermsOk(commands, SetCommand(p, commands[k].id, value))
  {
    assert CommandOk(commands[k]);
    assert Has(commands, commands[k].id);
    assert !Has(commands, FUTURE);
  }

  lemma {:induction false} SetCategoryOk(commands: seq<Command>, n: nat, p: Perms, category: nat, value: bool)
    requires TableOk(commands) && PermsOk(commands, p) && n <= |commands|
    ensures PermsOk(commands, SetCategory(commands[..n], p, category, value))
    decreases n
  {
    hide PermsOk, SetCommand;
    if n > 0 {
      SetCategoryOk(commands, n - 1, p, category, value);
      assert commands[..n][..n - 1] == commands[..n - 1];
      SetCommandOk(commands, SetCategory(commands[..n - 1], p, category, value), n - 1, value);
    }
  }

  lemma AddSubOk(commands: seq<Command>, p: Perms, k: nat, sub: string)
    requires TableOk(commands) && PermsOk(commands, p) && k < |commands|
    requires !Bit(p, commands[k].id) && sub != ""
    ensures PermsOk(commands, AddSub(p, commands[k].id, sub))
  {
    assert CommandOk(commands[k]);
    assert Has(commands, commands[k].id);
  }

  lemma SetAllOk(commands: seq<Command>, value: bool)
    requires TableOk(commands)
    ensures PermsOk(commands, SetAll(value))
  {
    assert SetAll(value).subs[0] == [];
  }

  lemma CommandRuleOk(env: Env, u: User, op: string)
    requires TableOk(env.commands) && PermsOk(env.commands, u.perms)
    requires op != "" && (op[0] == '+' || op[0] == '-')
    ensures var r := CommandRule(env, u, op); r.Ok? ==> PermsOk(env.commands, r.user.perms) && r.user.access == u.access
  {
    hide PermsOk, SetCommand, AddSub, Bit, SetCategory, TableOk, Lower;
    var c := env.commands;
    if op[0] == '+' && !(|op| > 1 && op[1] == '@') {
      var name := op[1..];
      var k := Find(c, name[..Bar(name)]);
      if Bar(name) == |name| {
        assert name[..Bar(name)] == name;
        if k < |c| { SetCommandOk(c, u.perms, k, true); }
      } else if k < |c| && name[Bar(name) + 1..] != "" && !Bit(u.perms, c[k].id) {
        AddSubOk(c, u.perms, k, name[Bar(name) + 1..]);
      }
    } else if op[0] == '-' && !(|op| > 1 && op[1] == '@') {
      var k := Find(c, op[1..]);
      if k < |c| { SetCommandOk(c, u.perms, k, false); }
    } else {
      SetCategoryOk(c, |c|, u.perms, FindCategory(env.categories, op[2..]), op[0] == '+');
      assert c[..|c|] == c;
    }
  }

  lemma AddOnceOk(s: seq<string>, x: string)
    requires NoRepeats(s)
    ensures NoRepeats(AddOnce(s, x))
    ensures forall y :: y in AddOnce(s, x) <==> y in s || y == x
  {
  }

  lemma {:induction false} WithoutOk(s: seq<string>, x: string)
    requires NoRepeats(s)
    ensures NoRepeats(Without(s, x))
    ensures forall y :: y in Without(s, x) <==> y in s && y != x
  {
    if s != [] {
      assert NoRepeats(s[1..]);
      WithoutOk(s[1..], x);
      var r := Without(s[1..], x);
      assert s == [s[0]] + s[1..];
      if s[0] != x {
        forall i, j | 0 <= i < j < |[s[0]] + r| ensures ([s[0]] + r)[i] != ([s[0]] + r)[j] {
          if i == 0 {
            assert r[j - 1] in s[1..];
          }
        }
      } else {
        assert x !in s[1..];
      }
    }
  }

  lemma KeywordRuleOk(env: Env, u: User, k: Keyword)
    requires EnvOk(env) && UserOk(env, u)
    ensures UserOk(env, KeywordRule(u, k))
  {
    EmptyOk();
    SetAllOk(env.commands, true);
    SetAllOk(env.commands, false);
    hide PatternsOk, PasswordsOk, PermsOk, TableOk, SetAll;
  }

  lemma EmptyOk()
    ensures PatternsOk([]) && PasswordsOk([])
  {
  }

  lemma PasswordRuleOk(env: Env, u: User, op: string)
    requires EnvOk(env) && AccessOk(u.access) && op != ""
    requires op[0] == '>' || op[0] == '#' || op[0] == '<' || op[0] == '!'
    ensures var r := PasswordRule(env, u, op); r.Ok? ==> AccessOk(r.user.access) && r.user.perms == u.perms
  {
    hide IsHash, PatternsOk, TableOk, NoRepeats, Without, AddOnce;
    var pass := if op[0] == '>' || op[0] == '<' then env.hash(op[1..]) else op[1..];
    AddOnceOk(u.access.passwords, pass);
    WithoutOk(u.access.passwords, pass);
  }

  lemma StarIsAWord(op: string)
    requires op != "" && op[1..] == "*" && (op[0] == '~' || op[0] == '&')
    ensures KeywordOf(Lower(op)) != NotAKeyword
  {
    assert op == [op[0]] + op[1..];
    assert Lower(op) == op;
  }

  lemma PatternRuleOk(u: User, op: string)
    requires AccessOk(u.access) && op != "" && (op[0] == '~' || op[0] == '&') && KeywordOf(Lower(op)) == NotAKeyword
    ensures var r := KeyRule(u, op); r.Ok? ==> AccessOk(r.user.access) && r.user.perms == u.perms
    ensures var r := ChannelRule(u, op); r.Ok? ==> AccessOk(r.user.access) && r.user.perms == u.perms
  {
    hide HasSpaces, KeywordOf, PatternsOk, PasswordsOk, AddOnce;
    if op[1..] == "*" {
      StarIsAWord(op);
    }
    if !HasSpaces(op[1..]) {
      AddPatternOk(u.access.patterns, op[1..]);
      AddPatternOk(u.access.channels, op[1..]);
    }
  }

  lemma AddPatternOk(s: seq<string>, x: string)
    requires PatternsOk(s) && !HasSpaces(x) && x != "*"
    ensures PatternsOk(AddOnce(s, x))
  {
    hide HasSpaces;
    AddOnceOk(s, x);
  }

  /** Every rule keeps every user well formed. */
  lemma ApplyOk(env: Env, u: User, op: string)
    requires EnvOk(env) && UserOk(env, u)
    ensures var r := Apply(env, u, op); r.Ok? ==> UserOk(env, r.user)
  {
    hide PermsOk, AccessOk, KeywordOf, KeywordRule, CommandRule, PasswordRule, KeyRule, ChannelRule, Lower, TableOk;
    SetAllOk(env.commands, false);
    ResetOk(env, u.access);
    if op != "" {
      KeywordRuleOk(env, u, KeywordOf(Lower(op)));
      if op[0] == '>' || op[0] == '#' || op[0] == '<' || op[0] == '!' {
        PasswordRuleOk(env, u, op);
      } else if op[0] == '~' || op[0] == '&' {
        if KeywordOf(Lower(op)) == NotAKeyword { PatternRuleOk(u, op); }
      } else if op[0] == '+' || op[0] == '-' {
        CommandRuleOk(env, u, op);
      }
    }
  }

  lemma ResetOk(env: Env, a: Access)
    ensures AccessOk(ResetAccess(env, a))
  {
  }

  // ------------------------------------------------------------------
  // Sequences of rules

  /** All the rules in turn; a rule that is refused leaves the user as it is. */
  function RunAll(env: Env, u: User, ops: seq<string>): (r: User)
    requires Shaped(u.perms) && TableOk(env.commands)
    ensures Shaped(r.perms)
  {
    if ops == [] then u else
    var v := RunAll(env, u, ops[..|ops| - 1]);
    match Apply(env, v, ops[|ops| - 1])
    case Ok(x) => ApplyShaped(env, v, ops[|ops| - 1]); x
    case Err(_) => v
  }

  /** All the rules in turn, each of which must be accepted. */
  function Replay(env: Env, u: User, ops: seq<string>): (r: Outcome)
    requires Shaped(u.perms) && TableOk(env.commands)
    ensures r.Ok? ==> Shaped(r.user.perms)
  {
    if ops == [] then Ok(u) else
    match Replay(env, u, ops[..|ops| - 1])
    case Ok(v) => ApplyShaped(env, v, ops[|ops| - 1]); Apply(env, v, ops[|ops| - 1])
    case Err(e) => Err(e)
  }

  lemma {:induction false} SetCategoryShaped(commands: seq<Command>, p: Perms, category: nat, value: bool)
    requires Shaped(p)
    ensures Shaped(SetCategory(commands, p, category, value))
    decreases |commands|
  {
    if commands != [] {
      SetCategoryShaped(commands[..|commands| - 1], p, category, value);
    }
  }

  lemma CommandRuleShaped(env: Env, u: User, op: string)
    requires op != "" && (op[0] == '+' || op[0] == '-')
    requires Shaped(u.perms) && TableOk(env.commands)
    ensures var r := CommandRule(env, u, op); r.Ok? ==> Shaped(r.user.perms)
  {
    hide SetCategory, Lower;
    if |op| >= 2 {
      SetCategoryShaped(env.commands, u.perms, FindCategory(env.categories, op[2..]), op[0] == '+');
    }
  }

  lemma ApplyShaped(env: Env, u: User, op: string)
    requires Shaped(u.perms) && TableOk(env.commands)
    ensures var r := Apply(env, u, op); r.Ok? ==> Shaped(r.user.perms)
  {
    hide KeywordOf, CommandRule, Lower, HasSpaces, IsHash, AddOnce, Without;
    if op != "" && (op[0] == '+' || op[0] == '-') {
      CommandRuleShaped(env, u, op);
    }
  }

  ghost predicate Reachable(env: Env, u: User)
    requires TableOk(env.commands)
  {
    exists ops :: u == RunAll(env, Fresh(env), ops)
  }

  lemma {:induction false} RunOk(env: Env, ops: seq<string>)
    requires EnvOk(env)
    ensures UserOk(env, RunAll(env, Fresh(env), ops))
    decreases |ops|
  {
    hide Apply, PermsOk, AccessOk;
    if ops == [] {
      FreshOk(env);
    } else {
      RunOk(env, ops[..|ops| - 1]);
      ApplyOk(env, RunAll(env, Fresh(env), ops[..|ops| - 1]), ops[|ops| - 1]);
    }
  }

  lemma FreshOk(env: Env)
    requires EnvOk(env)
    ensures UserOk(env, Fresh(env))
  {
    SetAllOk(env.commands, false);
  }

  /** Every user that rules can build is well formed. */
  lemma ReachableOk(env: Env, u: User)
    requires EnvOk(env) && Reachable(env, u)
    ensures UserOk(env, u)
  {
    var ops :| u == RunAll(env, Fresh(env), ops);
    RunOk(env, ops);
  }

  lemma ReplayNext(env: Env, u: User, ops: seq<string>, op: string)
    requires Shaped(u.perms) && TableOk(env.commands) && Replay(env, u, ops).Ok?
    ensures Replay(env, u, ops + [op]) == Apply(env, Replay(env, u, ops).user, op)
  {
    assert (ops + [op])[..|ops|] == ops;
  }

  // ------------------------------------------------------------------
  // The names of the categories

  /** Length, first letter and a later letter: enough to tell the categories apart. */
  function Signature(s: string): (nat, char, char) {
    if s == "" then (0, ' ', ' ')
    else (|s|, LowerChar(s[0]), LowerChar(s[if |s| > 3 then 3 else |s| - 1]))
  }

  function Place(g: (nat, char, char)): nat {
    match g
    case (8, 'k', _) => 0 case (4, 'r', _) => 1 case (5, 'w', _) => 2 case (3, 's', _) => 3
    case (9, 's', 't') => 4 case (4, 'l', _) => 5 case (4, 'h', _) => 6 case (6, 's', 'i') => 7
    case (6, 'b', _) => 8 case (11, 'h', _) => 9 case (3, 'g', _) => 10 case (6, 's', 'e') => 11
    case (6, 'p', _) => 12 case (5, 'a', _) => 13 case (4, 'f', _) => 14 case (4, 's', _) => 15
    case (8, 'b', _) => 16 case (9, 'd', _) => 17 case (10, 'c', _) => 18 case (11, 't', _) => 19
    case (9, 's', 'i') => 20 case _ => 21
  }

  lemma PlaceOfCategory(j: nat)
    requires j < |CATEGORIES|
    ensures Place(Signature(CATEGORIES[j])) == j
  {
  }

  lemma CategoriesAreDistinct()
    ensures CategoriesOk(CATEGORIES)
  {
    forall j, k | 0 <= j < k < |CATEGORIES| ensures !SameName(CATEGORIES[j], CATEGORIES[k]) {
      PlaceOfCategory(j);
      PlaceOfCategory(k);
      SameSignature(CATEGORIES[j], CATEGORIES[k]);
    }
    forall j | 0 <= j < |CATEGORIES| ensures !SameName(CATEGORIES[j], "all") {
      PlaceOfCategory(j);
      SameSignature(CATEGORIES[j], "all");
      assert Place(Signature("all")) == 21;
    }
  }

  lemma SameSignature(a: string, b: string)
    ensures SameName(a, b) ==> Signature(a) == Signature(b)
  {
    if SameName(a, b) && a != "" {
      var i := if |a| > 3 then 3 else |a| - 1;
      assert Lower(a)[0] == Lower(b)[0] && Lower(a)[i] == Lower(b)[i];
    }
  }
}

