/** What the rules that describe a user do when they are applied, and what a user may run. */
module AclRules {
  import opened Names
  import opened AclSpec

  function Sign(value: bool): string {
    if value then "+" else "-"
  }

  function CommandToken(c: Command, value: bool): string {
    Sign(value) + c.name
  }

  function SubToken(c: Command, sub: string): string {
    "+" + c.name + "|" + sub
  }

  function CategoryToken(name: string, value: bool): string {
    Sign(value) + "@" + name
  }

  lemma FindOwn(commands: seq<Command>, k: nat)
    requires TableOk(commands) && k < |commands|
    ensures Find(commands, commands[k].name) == k
  {
  }

  lemma FindCategoryOwn(names: seq<string>, k: nat)
    requires CategoriesOk(names) && k < |names|
    ensures FindCategory(names, names[k]) == k
  {
  }

  /** A signed name is only a keyword when it is `+@all` or `-@all`. */
  lemma SignedOp(op: string)
    requires |op| > 1 && (op[0] == '+' || op[0] == '-')
    requires op[1] != '@' || !SameName(op[2..], "all")
    ensures KeywordOf(Lower(op)) == NotAKeyword
  {
    var w := Lower(op);
    assert w[0] == op[0] && (w[1] == '@' ==> op[1] == '@');
    assert Lower(op[2..]) == w[2..];
    assert Lower("all") == "all";
    assert "+@all"[2..] == "all" && "-@all"[2..] == "all";
  }

  lemma ApplyCommand(env: Env, u: User, k: nat, value: bool)
    requires TableOk(env.commands) && Shaped(u.perms) && k < |env.commands|
    ensures Apply(env, u, CommandToken(env.commands[k], value))
         == Ok(u.(perms := SetCommand(u.perms, env.commands[k].id, value)))
  {
    var c := env.commands[k];
    var op := CommandToken(c, value);
    assert CommandOk(c);
    assert op[1..] == c.name && op[1] == c.name[0];
    hide KeywordOf, KeywordRule, SetCommand, Lower, TableOk;
    SignedOp(op);
    FindOwn(env.commands, k);
  }

  lemma BarAt(a: string, b: string)
    requires Bar(a) == |a|
    ensures Bar(a + "|" + b) == |a|
  {
    var s := a + "|" + b;
    assert s[|a|] == '|';
    assert forall j :: 0 <= j < |a| ==> s[j] == a[j];
  }

  lemma SubTokenParts(c: Command, sub: string)
    requires CommandOk(c)
    ensures
      var op := SubToken(c, sub);
      && |op| > 1 && op[0] == '+' && op[1] == c.name[0] && op[1..] == c.name + "|" + sub
      && op[1..][..|c.name|] == c.name && op[1..][|c.name| + 1..] == sub
  {
  }

  lemma ApplySub(env: Env, u: User, k: nat, sub: string)
    requires TableOk(env.commands) && Shaped(u.perms) && k < |env.commands|
    requires !Bit(u.perms, env.commands[k].id) && sub != ""
    ensures env.commands[k].id < |u.perms.subs|
    ensures Apply(env, u, SubToken(env.commands[k], sub))
         == Ok(u.(perms := AddSub(u.perms, env.commands[k].id, sub)))
  {
    var c := env.commands[k];
    var op := SubToken(c, sub);
    assert CommandOk(c);
    SubTokenParts(c, sub);
    hide SubToken, KeywordOf, KeywordRule, AddSub, Lower, TableOk, Bit, Bar, Find;
    SignedOp(op);
    FindOwn(env.commands, k);
    BarAt(c.name, sub);
  }

  lemma ApplyCategory(env: Env, u: User, j: nat, value: bool)
    requires EnvOk(env) && Shaped(u.perms) && j < |env.categories|
    ensures Apply(env, u, CategoryToken(env.categories[j], value))
         == Ok(u.(perms := SetCategory(env.commands, u.perms, j, value)))
  {
    var op := CategoryToken(env.categories[j], value);
    assert op[1] == '@' && op[2..] == env.categories[j];
    hide KeywordOf, KeywordRule, SetCategory, Lower, TableOk;
    SignedOp(op);
    FindCategoryOwn(env.categories, j);
  }

  lemma ApplyAll(env: Env, u: User, value: bool)
    requires TableOk(env.commands) && Shaped(u.perms)
    ensures Apply(env, u, CategoryToken("all", value)) == Ok(u.(perms := SetAll(value)))
  {
    var op := CategoryToken("all", value);
    assert Lower(op) == op;
    assert op == if value then "+@all" else "-@all";
    assert KeywordOf(op) == if value then AllCommands else NoCommands;
  }

  // ------------------------------------------------------------------
  // Permissions

  /** The command part of `ACLCheckCommandPerm`. */
  predicate MayRun(p: Perms, c: Command, argv: seq<string>) {
    || p.all || c.noAuth || Bit(p, c.id)
    || (|argv| >= 2 && c.id < |p.subs| && Lists(p.subs[c.id], argv[1]))
  }

  /** Two users with the same bitmap and lists may run the same commands, whatever their
      `ALLCOMMANDS` flags say, as long as the command number fits the bitmap. */
  lemma SamePermissions(commands: seq<Command>, p: Perms, q: Perms, c: Command, argv: seq<string>)
    requires PermsOk(commands, p) && PermsOk(commands, q) && p.bits == q.bits && p.subs == q.subs
    requires c.id < BITS
    ensures MayRun(p, c, argv) == MayRun(q, c, argv)
  {
  }

  /** For a number past the bitmap only the flag counts. */
  lemma OverflowPermissions(commands: seq<Command>, p: Perms, q: Perms, c: Command, argv: seq<string>)
    requires PermsOk(commands, p) && PermsOk(commands, q) && p.bits == q.bits && p.subs == q.subs
    requires c.id >= BITS && !c.noAuth
    ensures MayRun(p, c, argv) == MayRun(q, c, argv) <==> p.all == q.all
  {
  }

  // ------------------------------------------------------------------
  // Rebuilding a user from its description

  lemma {:induction false} CategoryKeeps(commands: seq<Command>, p: Perms, category: nat, value: bool)
    requires Shaped(p) && (forall k :: 0 <= k < |commands| ==> commands[k].id < FUTURE)
    requires forall i :: 0 <= i < BITS ==> p.subs[i] == []
    ensures var q := SetCategory(commands, p, category, value);
      Shaped(q) && q.bits[FUTURE] == p.bits[FUTURE] && forall i :: 0 <= i < BITS ==> q.subs[i] == []
    decreases |commands|
  {
    if commands != [] {
      CategoryKeeps(commands[..|commands| - 1], p, category, value);
    }
  }

  /** `r` agrees with `u` on the first `k` commands and has no subcommands of the others. */
  ghost predicate Rebuilt(commands: seq<Command>, u: Perms, r: Perms, k: nat) {
    && PermsOk(commands, u) && PermsOk(commands, r) && TableOk(commands)
    && r.bits[FUTURE] == u.bits[FUTURE]
    && (forall j :: 0 <= j < k && j < |commands| ==> Agree(u, r, commands[j].id))
    && forall j :: k <= j < |commands| ==> Bare(r, commands[j].id)
  }

  predicate Agree(u: Perms, r: Perms, id: nat) {
    id < |u.bits| && id < |r.bits| && id < |u.subs| && id < |r.subs|
    && u.bits[id] == r.bits[id] && u.subs[id] == r.subs[id]
  }

  predicate Bare(r: Perms, id: nat) {
    id < |r.subs| && r.subs[id] == []
  }

  /** In addition the bit of command `k` and the first `m` of its subcommands agree. */
  ghost predicate Adding(commands: seq<Command>, u: Perms, r: Perms, k: nat, m: nat)
    requires k < |commands|
  {
    && PermsOk(commands, u) && PermsOk(commands, r) && TableOk(commands)
    && r.bits[FUTURE] == u.bits[FUTURE]
    && (forall j :: 0 <= j < k ==> Agree(u, r, commands[j].id))
    && (forall j :: k < j < |commands| ==> Bare(r, commands[j].id))
    && CommandOk(commands[k])
    && m <= |u.subs[commands[k].id]|
    && r.bits[commands[k].id] == u.bits[commands[k].id]
    && r.subs[commands[k].id] == u.subs[commands[k].id][..m]
  }

  lemma StartRebuild(commands: seq<Command>, u: Perms, r: Perms)
    requires TableOk(commands) && PermsOk(commands, u) && PermsOk(commands, r)
    requires r.bits[FUTURE] == u.bits[FUTURE] && forall i :: 0 <= i < BITS ==> r.subs[i] == []
    ensures Rebuilt(commands, u, r, 0)
  {
    forall j | 0 <= j < |commands| ensures Bare(r, commands[j].id) {
      assert CommandOk(commands[j]);
    }
  }

  lemma FixBit(commands: seq<Command>, u: Perms, r: Perms, k: nat)
    requires k < |commands| && Rebuilt(commands, u, r, k)
    ensures CommandOk(commands[k])
    ensures var id := commands[k].id;
      var q := if r.bits[id] == u.bits[id] then r else SetCommand(r, id, u.bits[id]);
      Adding(commands, u, q, k, 0) && q.bits == r.bits[id := u.bits[id]]
  {
    var id := commands[k].id;
    assert CommandOk(commands[k]);
    assert Bare(r, id);
    SetCommandOk(commands, r, k, u.bits[id]);
  }

  lemma FixSub(commands: seq<Command>, u: Perms, r: Perms, k: nat, m: nat)
    requires k < |commands| && Adding(commands, u, r, k, m)
    requires m < |u.subs[commands[k].id]|
    ensures !Bit(r, commands[k].id) && u.subs[commands[k].id][m] != ""
    ensures var q := AddSub(r, commands[k].id, u.subs[commands[k].id][m]);
      Adding(commands, u, q, k, m + 1) && q.bits == r.bits
  {
    var id := commands[k].id;
    var sub := u.subs[id][m];
    assert Distinct(u.subs[id]);
    assert u.subs[id][..m] + [sub] == u.subs[id][..m + 1];
    AddSubOk(commands, r, k, sub);
  }

  lemma EndOfCommand(commands: seq<Command>, u: Perms, r: Perms, k: nat, m: nat)
    requires k < |commands| && Adding(commands, u, r, k, m) && m == |u.subs[commands[k].id]|
    ensures Rebuilt(commands, u, r, k + 1)
  {
    assert Agree(u, r, commands[k].id);
  }

  lemma EndOfRebuild(commands: seq<Command>, u: Perms, r: Perms)
    requires Rebuilt(commands, u, r, |commands|)
    ensures r.bits == u.bits && r.subs == u.subs
  {
    forall i | 0 <= i < BITS ensures r.bits[i] == u.bits[i] && r.subs[i] == u.subs[i] {
      if Has(commands, i) {
        var k :| 0 <= k < |commands| && commands[k].id == i;
        assert Agree(u, r, commands[k].id);
      }
    }
  }
}

