/** What rules mean for the check of a command: read off the text of the rules, without the user object. */
module AclPermissions {
  import opened Names
  import opened AclSpec
  import opened AclRules

  /** What a rule says about one command. */
  datatype Saying = Allows | Denies | AllowsSub(sub: string) | Silent

  /** The command is not a module's and belongs to the category of this name, which is in lower case. */
  ghost predicate InCategory(env: Env, c: Command, name: string) {
    !c.isModule && exists j :: 0 <= j < |env.categories| && Lower(env.categories[j]) == name && j in c.categories
  }

  ghost function Says(env: Env, c: Command, rule: string): Saying {
    Reads(env, c, Lower(rule))
  }

  /** The text of a rule in lower case: all commands, this one, a subcommand of it, or a category it is in. */
  ghost function Reads(env: Env, c: Command, w: string): Saying {
    var name := Lower(c.name);
    if w in {"+@all", "allcommands"} then Allows
    else if w in {"-@all", "nocommands", "reset"} then Denies
    else if w == "+" + name then Allows
    else if w == "-" + name then Denies
    else if "+" + name + "|" < w then AllowsSub(w[|name| + 2..])
    else if "+@" <= w && InCategory(env, c, w[2..]) then Allows
    else if "-@" <= w && InCategory(env, c, w[2..]) then Denies
    else Silent
  }

  /** What a list of rules permits: the last rule that speaks about the whole command decides, and the subcommands
      allowed since then are permitted besides. */
  ghost predicate Permitted(env: Env, c: Command, rules: seq<string>, argv: seq<string>) {
    rules != [] &&
    var init := rules[..|rules| - 1];
    match Says(env, c, rules[|rules| - 1])
    case Allows => true
    case Denies => false
    case AllowsSub(sub) => Permitted(env, c, init, argv) || (|argv| >= 2 && Lower(argv[1]) == sub)
    case Silent => Permitted(env, c, init, argv)
  }

  /** The user after a rule, which may be refused. */
  function After(env: Env, u: User, rule: string): User
    requires Shaped(u.perms) && TableOk(env.commands)
  {
    match Apply(env, u, rule)
    case Ok(v) => v
    case Err(_) => u
  }

  // ------------------------------------------------------------------
  // One kind of rule after the other

  /** The answer for command `c`. */
  ghost predicate Follows(p: Perms, q: Perms, c: Command, s: Saying, argv: seq<string>) {
    MayRun(q, c, argv) <==>
      match s
      case Allows => true
      case Denies => c.noAuth
      case AllowsSub(sub) => MayRun(p, c, argv) || (|argv| >= 2 && Lower(argv[1]) == sub)
      case Silent => MayRun(p, c, argv)
  }

  lemma SetCommandFollows(commands: seq<Command>, p: Perms, k: nat, j: nat, value: bool, argv: seq<string>)
    requires TableOk(commands) && PermsOk(commands, p) && k < |commands| && j < |commands|
    ensures Follows(p, SetCommand(p, commands[j].id, value), commands[k],
                    if j == k then if value then Allows else Denies else Silent, argv)
  {
    assert CommandOk(commands[j]) && CommandOk(commands[k]);
  }

  lemma AddSubFollows(commands: seq<Command>, p: Perms, k: nat, j: nat, sub: string, argv: seq<string>)
    requires TableOk(commands) && PermsOk(commands, p) && k < |commands| && j < |commands|
    ensures CommandOk(commands[j]) && CommandOk(commands[k])
    ensures Bit(p, commands[j].id) ==>
      Follows(p, p, commands[k], if j == k then AllowsSub(Lower(sub)) else Silent, argv)
    ensures Follows(p, AddSub(p, commands[j].id, sub), commands[k],
                    if j == k then AllowsSub(Lower(sub)) else Silent, argv)
  {
    assert CommandOk(commands[j]) && CommandOk(commands[k]);
    if j == k && |argv| >= 2 {
      AddSubLists(p.subs[commands[k].id], sub, argv[1]);
    }
  }

  lemma AddSubLists(subs: seq<string>, sub: string, arg: string)
    ensures Lists(subs, sub) ==> (Lists(subs, arg) <==> Lists(subs, arg) || Lower(arg) == Lower(sub))
    ensures Lists(subs + [sub], arg) <==> Lists(subs, arg) || Lower(arg) == Lower(sub)
  {
    var s := subs + [sub];
    assert s[|subs|] == sub;
    assert forall i :: 0 <= i < |subs| ==> s[i] == subs[i];
  }

  lemma SetAllFollows(p: Perms, c: Command, value: bool, argv: seq<string>)
    requires c.id < BITS
    ensures Follows(p, SetAll(value), c, if value then Allows else Denies, argv)
  {
  }

  lemma EmptyTable(p: Perms, category: nat, value: bool)
    ensures SetCategory([], p, category, value) == p
  {
  }

  lemma SetCategoryNext(commands: seq<Command>, n: nat, p: Perms, category: nat, value: bool)
    requires 0 < n <= |commands|
    ensures
      var c, q := commands[n - 1], SetCategory(commands[..n - 1], p, category, value);
      SetCategory(commands[..n], p, category, value) ==
        if !c.isModule && category in c.categories then SetCommand(q, c.id, value) else q
  {
    hide SetCommand;
    assert commands[..n][..n - 1] == commands[..n - 1];
  }

  /** A category rule is the rule of each of its commands that is not a module's. */
  lemma {:induction false} SetCategoryFollows(commands: seq<Command>, n: nat, p: Perms, k: nat, category: nat,
                                              value: bool, argv: seq<string>)
    requires TableOk(commands) && PermsOk(commands, p) && k < |commands| && n <= |commands|
    ensures
      var c := commands[k];
      Follows(p, SetCategory(commands[..n], p, category, value), c,
              if k < n && !c.isModule && category in c.categories then if value then Allows else Denies else Silent,
              argv)
    decreases n
  {
    hide PermsOk, SetCommand, MayRun, TableOk, SetCategory;
    if n == 0 {
      EmptyTable(p, category, value);
      assert commands[..0] == [];
    } else {
      SetCategoryNext(commands, n, p, category, value);
      SetCategoryFollows(commands, n - 1, p, k, category, value, argv);
      SetCategoryOk(commands, n - 1, p, category, value);
      SetCommandFollows(commands, SetCategory(commands[..n - 1], p, category, value), k, n - 1, value, argv);
    }
  }

  // ------------------------------------------------------------------
  // Reading the text

  lemma NameParts(c: Command)
    requires CommandOk(c)
    ensures Lower(c.name) != "" && Lower(c.name)[0] != '@' && '|' !in Lower(c.name)
  {
    var name := Lower(c.name);
    assert name[0] == LowerChar(c.name[0]);
    forall i | 0 <= i < |name| ensures name[i] != '|' {
      assert c.name[i] != '|';
    }
  }

  /** A rule that is not about commands. */
  lemma ReadsOther(env: Env, c: Command, w: string)
    requires CommandOk(c) && (w == "" || (w[0] != '+' && w[0] != '-'))
    requires w !in {"allcommands", "nocommands", "reset"}
    ensures Reads(env, c, w) == Silent
  {
    assert "+@all"[0] == '+' && "-@all"[0] == '-';
  }

  /** `+name` and `-name`. */
  lemma ReadsName(env: Env, c: Command, value: bool, x: string)
    requires CommandOk(c) && '|' !in x && (x == "" || x[0] != '@')
    ensures Reads(env, c, Sign(value) + x) ==
      if x == Lower(c.name) then if value then Allows else Denies else Silent
  {
    NameParts(c);
    var w, name := Sign(value) + x, Lower(c.name);
    assert w[1..] == x;
    assert ("+" + name)[1..] == name && ("-" + name)[1..] == name;
    assert "+@all"[1] == '@' && "-@all"[1] == '@';
    assert "allcommands"[0] == 'a' && "nocommands"[0] == 'n' && "reset"[0] == 'r';
    assert ("+" + name + "|")[|name| + 1] == '|';
    assert forall i :: 1 <= i < |w| ==> w[i] == x[i - 1];
  }

  /** `-name|sub` is about no command. */
  lemma ReadsDenySub(env: Env, c: Command, x: string)
    requires CommandOk(c) && '|' in x && x[0] != '@'
    ensures Reads(env, c, "-" + x) == Silent
  {
    NameParts(c);
    var w, name := "-" + x, Lower(c.name);
    assert w[1..] == x && ("-" + name)[1..] == name && x != name;
    assert w[0] == '-' && w[1] == x[0] && ("+" + name)[0] == '+' && ("+" + name + "|")[0] == '+';
    assert "+@"[0] == '+' && "-@"[1] == '@';
    assert "-@all"[1] == '@' && "allcommands"[0] == 'a' && "nocommands"[0] == 'n' && "reset"[0] == 'r';
    assert "+@all"[0] == '+';
  }

  /** `+name|sub`. */
  lemma ReadsSub(env: Env, c: Command, x: string, sub: string)
    requires CommandOk(c) && '|' !in x && (x == "" || x[0] != '@')
    ensures Reads(env, c, "+" + x + "|" + sub) ==
      if x == Lower(c.name) && sub != "" then AllowsSub(sub) else Silent
  {
    NameParts(c);
    var w, name := "+" + x + "|" + sub, Lower(c.name);
    assert w[1..] == x + "|" + sub && w[|x| + 1] == '|';
    assert forall i :: 0 <= i < |x| ==> w[i + 1] == x[i];
    assert "+@all"[1] == '@' && "-@all"[0] == '-';
    assert "allcommands"[0] == 'a' && "nocommands"[0] == 'n' && "reset"[0] == 'r';
    assert ("+" + name)[1..] == name;
    SubPrefix(name, x, sub);
    if x == name {
      assert w[|name| + 2..] == sub;
    }
  }

  lemma SubPrefix(name: string, x: string, sub: string)
    requires '|' !in name && '|' !in x
    ensures "+" + name + "|" < "+" + x + "|" + sub <==> x == name && sub != ""
    ensures "+" + x + "|" + sub != "+" + name
  {
    var a, w := "+" + name + "|", "+" + x + "|" + sub;
    assert w[|x| + 1] == '|' && a[|name| + 1] == '|';
    assert forall i :: 0 <= i < |x| ==> w[i + 1] == x[i];
    assert forall i :: 0 <= i < |name| ==> a[i + 1] == name[i];
    if a < w {
      assert |x| == |name|;
      assert forall i :: 0 <= i < |x| ==> x[i] == w[i + 1] == a[i + 1] == name[i];
      assert x == name;
    }
    if x == name && sub != "" {
      assert a < w;
    }
    assert forall i :: 1 <= i < |"+" + name| ==> ("+" + name)[i] == name[i - 1];
  }

  /** `+@category` and `-@category`. */
  lemma ReadsCategory(env: Env, c: Command, value: bool, x: string)
    requires CommandOk(c) && x != "all"
    ensures Reads(env, c, Sign(value) + "@" + x) ==
      if InCategory(env, c, x) then if value then Allows else Denies else Silent
  {
    NameParts(c);
    var w, name := Sign(value) + "@" + x, Lower(c.name);
    assert w[1] == '@' && w[2..] == x && w[0] == if value then '+' else '-';
    assert "+@"[0] == '+' && "-@"[0] == '-';
    assert value ==> "+@" <= w;
    assert !value ==> "-@" <= w;
    assert ("+" + name)[1] == name[0] && ("-" + name)[1] == name[0] && ("+" + name + "|")[1] == name[0];
    assert "+@all"[2..] == "all" && "-@all"[2..] == "all";
    assert "allcommands"[0] == 'a' && "nocommands"[0] == 'n' && "reset"[0] == 'r';
  }

  // ------------------------------------------------------------------
  // Every rule

  lemma NameRule(env: Env, u: User, rule: string, k: nat, argv: seq<string>)
    requires EnvOk(env) && UserOk(env, u) && k < |env.commands|
    requires rule != "" && (rule[0] == '+' || rule[0] == '-') && (|rule| == 1 || rule[1] != '@')
    requires Bar(rule[1..]) == |rule| - 1 || rule[0] == '-'
    ensures Follows(u.perms, (match CommandRule(env, u, rule) case Ok(v) => v case Err(_) => u).perms,
                    env.commands[k], Says(env, env.commands[k], rule), argv)
  {
    var c, x, value := env.commands[k], rule[1..], rule[0] == '+';
    assert CommandOk(c);
    var y, j := Lower(x), Find(env.commands, x);
    assert Lower(rule) == Sign(value) + y;
    LowerBar(x);
    if '|' in y {
      ReadsDenySub(env, c, y);
      BarredIsNoCommand(env.commands, x);
    } else {
      ReadsName(env, c, value, y);
      assert j < |env.commands| ==> (y == Lower(c.name) <==> j == k);
      if j < |env.commands| {
        SetCommandFollows(env.commands, u.perms, k, j, value, argv);
      }
    }
    hide PermsOk, SetCommand, Reads, MayRun, TableOk, Lower, Find;
  }

  lemma LowerBar(x: string)
    ensures '|' in Lower(x) <==> '|' in x
    ensures '|' in x <==> Bar(x) < |x|
    ensures x != "" ==> (Lower(x)[0] == '@' <==> x[0] == '@')
  {
    if i :| 0 <= i < |x| && x[i] == '|' {
      assert Lower(x)[i] == '|';
    }
    if i :| 0 <= i < |x| && Lower(x)[i] == '|' {
      assert x[i] == '|';
    }
  }

  lemma BarredIsNoCommand(commands: seq<Command>, x: string)
    requires TableOk(commands) && '|' in x
    ensures Find(commands, x) == |commands|
  {
    var j := Find(commands, x);
    if j < |commands| {
      assert CommandOk(commands[j]);
      NameParts(commands[j]);
      LowerBar(x);
    }
  }

  lemma LowerJoined(x: string, sub: string)
    ensures Lower("+" + x + "|" + sub) == "+" + Lower(x) + "|" + Lower(sub)
  {
  }

  lemma SubRule(env: Env, u: User, rule: string, k: nat, argv: seq<string>)
    requires EnvOk(env) && UserOk(env, u) && k < |env.commands|
    requires |rule| > 1 && rule[0] == '+' && rule[1] != '@' && Bar(rule[1..]) < |rule| - 1
    ensures Follows(u.perms, (match CommandRule(env, u, rule) case Ok(v) => v case Err(_) => u).perms,
                    env.commands[k], Says(env, env.commands[k], rule), argv)
  {
    var c, name := env.commands[k], rule[1..];
    assert CommandOk(c);
    var b := Bar(name);
    var x, sub := name[..b], name[b + 1..];
    assert rule == "+" + x + "|" + sub;
    LowerJoined(x, sub);
    LowerBar(x);
    assert x != "" ==> x[0] == rule[1];
    ReadsSub(env, c, Lower(x), Lower(sub));
    var j := Find(env.commands, x);
    assert j < |env.commands| ==> (Lower(x) == Lower(c.name) <==> j == k);
    if j < |env.commands| {
      AddSubFollows(env.commands, u.perms, k, j, sub, argv);
    }
    hide PermsOk, AddSub, Reads, MayRun, TableOk, CategoriesOk, Lower, Find, Bit, Bar;
  }

  lemma CategoryRule(env: Env, u: User, rule: string, k: nat, argv: seq<string>)
    requires EnvOk(env) && UserOk(env, u) && k < |env.commands|
    requires |rule| > 1 && (rule[0] == '+' || rule[0] == '-') && rule[1] == '@' && Lower(rule[2..]) != "all"
    ensures Follows(u.perms, (match CommandRule(env, u, rule) case Ok(v) => v case Err(_) => u).perms,
                    env.commands[k], Says(env, env.commands[k], rule), argv)
  {
    var c, x, value := env.commands[k], rule[2..], rule[0] == '+';
    assert CommandOk(c);
    assert Lower(rule) == Sign(value) + "@" + Lower(x);
    ReadsCategory(env, c, value, Lower(x));
    var j := FindCategory(env.categories, x);
    CategoryOf(env, c, x);
    if j < |env.categories| {
      SetCategoryFollows(env.commands, |env.commands|, u.perms, k, j, value, argv);
      assert env.commands[..|env.commands|] == env.commands;
    }
    hide PermsOk, SetCategory, Reads, MayRun, TableOk, Lower, FindCategory, InCategory;
  }

  lemma CategoryOf(env: Env, c: Command, x: string)
    requires CategoriesOk(env.categories)
    ensures
      var j := FindCategory(env.categories, x);
      InCategory(env, c, Lower(x)) <==> j < |env.categories| && !c.isModule && j in c.categories
  {
    var j := FindCategory(env.categories, x);
    if i :| 0 <= i < |env.categories| && Lower(env.categories[i]) == Lower(x) {
      assert j < |env.categories| && SameName(env.categories[j], env.categories[i]);
      assert i == j;
    }
  }

  lemma KeywordSays(env: Env, c: Command, rule: string)
    requires CommandOk(c) && KeywordOf(Lower(rule)) != NotAKeyword
    ensures Says(env, c, rule) ==
      match KeywordOf(Lower(rule))
      case AllCommands => Allows
      case NoCommands => Denies
      case _ => Silent
  {
    var w := Lower(rule);
    if KeywordOf(w) != AllCommands && KeywordOf(w) != NoCommands {
      assert w[0] != '+' && w[0] != '-';
      ReadsOther(env, c, w);
    }
  }

  /** One rule, for every well-formed user and every command of the table: after a rule that allows the command it
      may be run with any arguments; after one that denies it, only if it needs no permission; a rule about a
      subcommand adds exactly that one; and every other rule, also one that is refused, changes nothing. */
  lemma RuleDecides(env: Env, u: User, rule: string, k: nat, argv: seq<string>)
    requires EnvOk(env) && UserOk(env, u) && k < |env.commands|
    ensures
      var c := env.commands[k];
      MayRun(After(env, u, rule).perms, c, argv) <==>
        match Says(env, c, rule)
        case Allows => true
        case Denies => c.noAuth
        case AllowsSub(sub) => MayRun(u.perms, c, argv) || (|argv| >= 2 && Lower(argv[1]) == sub)
        case Silent => MayRun(u.perms, c, argv)
  {
    var c, w := env.commands[k], Lower(rule);
    assert CommandOk(c);
    SetAllFollows(u.perms, c, true, argv);
    SetAllFollows(u.perms, c, false, argv);
    hide PermsOk, TableOk, CategoriesOk, AccessOk, MayRun, Reads, SetAll, CommandRule;
    if KeywordOf(w) != NotAKeyword {
      KeywordSays(env, c, rule);
      hide KeywordOf, Says;
    } else if rule != "" && (rule[0] == '+' || rule[0] == '-') {
      SignedRule(env, u, rule, k, argv);
    } else {
      OtherRule(env, c, rule);
      assert w != "" ==> w[0] == LowerChar(rule[0]);
      assert "reset"[0] == 'r';
      hide KeywordOf, PasswordRule, KeyRule, ChannelRule, ResetAccess, Says;
      if rule != "" {
        PermsStay(env, u, rule);
      }
    }
  }

  lemma PermsStay(env: Env, u: User, rule: string)
    requires rule != ""
    ensures PasswordRule(env, u, rule).Ok? ==> PasswordRule(env, u, rule).user.perms == u.perms
    ensures KeyRule(u, rule).Ok? ==> KeyRule(u, rule).user.perms == u.perms
    ensures ChannelRule(u, rule).Ok? ==> ChannelRule(u, rule).user.perms == u.perms
  {
    hide HasSpaces, IsHash, AddOnce, Without;
  }

  lemma OtherRule(env: Env, c: Command, rule: string)
    requires CommandOk(c) && KeywordOf(Lower(rule)) == NotAKeyword
    requires rule == "" || (rule[0] != '+' && rule[0] != '-')
    ensures Says(env, c, rule) == if Lower(rule) == "reset" then Denies else Silent
  {
    var w := Lower(rule);
    if w != "reset" {
      assert w == "" || (w[0] != '+' && w[0] != '-');
      ReadsOther(env, c, w);
    }
  }

  lemma SignedRule(env: Env, u: User, rule: string, k: nat, argv: seq<string>)
    requires EnvOk(env) && UserOk(env, u) && k < |env.commands| && KeywordOf(Lower(rule)) == NotAKeyword
    requires rule != "" && (rule[0] == '+' || rule[0] == '-')
    ensures Follows(u.perms, After(env, u, rule).perms, env.commands[k], Says(env, env.commands[k], rule), argv)
  {
    hide Follows, CommandRule, Reads, Says;
    if |rule| > 1 && rule[1] == '@' {
      NotAll(rule);
      CategoryRule(env, u, rule, k, argv);
    } else if rule[0] == '+' && Bar(rule[1..]) < |rule| - 1 {
      SubRule(env, u, rule, k, argv);
    } else {
      NameRule(env, u, rule, k, argv);
    }
  }

  lemma NotAll(rule: string)
    requires |rule| > 1 && (rule[0] == '+' || rule[0] == '-') && rule[1] == '@'
    requires KeywordOf(Lower(rule)) == NotAKeyword
    ensures Lower(rule[2..]) != "all"
  {
    assert Lower(rule) == [rule[0], '@'] + Lower(rule[2..]);
    assert ['+', '@'] + "all" == "+@all" && ['-', '@'] + "all" == "-@all";
  }

  /** Every list of rules, from a new user on: a command of the table may be run with these arguments if and only if
      it needs no permission or the rules permit it. */
  lemma {:induction false} RulesDecide(env: Env, rules: seq<string>, k: nat, argv: seq<string>)
    requires EnvOk(env) && k < |env.commands|
    ensures
      var c := env.commands[k];
      MayRun(RunAll(env, Fresh(env), rules).perms, c, argv) <==> c.noAuth || Permitted(env, c, rules, argv)
    decreases |rules|
  {
    hide Apply, Says, UserOk, Lower;
    if rules == [] {
      assert CommandOk(env.commands[k]);
      NewUserMayNot(env, env.commands[k], argv);
    } else {
      var init := rules[..|rules| - 1];
      RulesDecide(env, init, k, argv);
      RunOk(env, init);
      hide MayRun;
      RuleDecides(env, RunAll(env, Fresh(env), init), rules[|rules| - 1], k, argv);
    }
  }

  lemma NewUserMayNot(env: Env, c: Command, argv: seq<string>)
    requires c.id < BITS
    ensures MayRun(Fresh(env).perms, c, argv) <==> c.noAuth
  {
  }
}
