/** What rules mean for logging in and for the keys and channels a user may touch. */
module AclAccess {
  import opened Names
  import opened Options
  import opened AclSpec
  import opened AclRules
  import opened AclPermissions

  /** Rules by their first character; words have none of these. */
  predicate Starts(rule: string, c: char) {
    rule != "" && rule[0] == c
  }

  /** The rule is this word, in any case. */
  predicate Is(rule: string, word: string) {
    Lower(rule) == word
  }

  ghost predicate Signed(rule: string) {
    || Starts(rule, '>') || Starts(rule, '#') || Starts(rule, '<') || Starts(rule, '!')
    || Starts(rule, '~') || Starts(rule, '&') || Starts(rule, '+') || Starts(rule, '-')
  }

  /** The words of the keywords. */
  ghost predicate Spelled(rule: string, k: Keyword) {
    match k
    case On => Is(rule, "on")
    case Off => Is(rule, "off")
    case SkipSanitize => Is(rule, "skip-sanitize-payload")
    case Sanitize => Is(rule, "sanitize-payload")
    case AllKeys => Is(rule, "allkeys") || Is(rule, "~*")
    case ResetKeys => Is(rule, "resetkeys")
    case AllChannels => Is(rule, "allchannels") || Is(rule, "&*")
    case ResetChannels => Is(rule, "resetchannels")
    case AllCommands => Is(rule, "allcommands") || Is(rule, "+@all")
    case NoCommands => Is(rule, "nocommands") || Is(rule, "-@all")
    case NoPass => Is(rule, "nopass")
    case ResetPass => Is(rule, "resetpass")
    case NotAKeyword => false
  }

  lemma KeywordSpelled(rule: string)
    ensures KeywordOf(Lower(rule)) != NotAKeyword ==> Spelled(rule, KeywordOf(Lower(rule)))
  {
    hide Lower;
  }

  lemma WordKeywords()
    ensures KeywordOf("on") == On && KeywordOf("off") == Off && KeywordOf("nopass") == NoPass
    ensures KeywordOf("resetpass") == ResetPass && KeywordOf("reset") == NotAKeyword
    ensures KeywordOf("skip-sanitize-payload") == SkipSanitize && KeywordOf("sanitize-payload") == Sanitize
  {
  }

  lemma ScopeKeywords()
    ensures KeywordOf("allkeys") == AllKeys && KeywordOf("~*") == AllKeys && KeywordOf("resetkeys") == ResetKeys
    ensures KeywordOf("allchannels") == AllChannels && KeywordOf("&*") == AllChannels
    ensures KeywordOf("resetchannels") == ResetChannels
  {
  }

  lemma CommandKeywords()
    ensures KeywordOf("allcommands") == AllCommands && KeywordOf("+@all") == AllCommands
    ensures KeywordOf("nocommands") == NoCommands && KeywordOf("-@all") == NoCommands
  {
  }

  lemma SpelledKeyword(rule: string, k: Keyword)
    requires Spelled(rule, k)
    ensures KeywordOf(Lower(rule)) == k
  {
    hide KeywordOf, Lower;
    WordKeywords();
    ScopeKeywords();
    CommandKeywords();
  }

  lemma Keywords(rule: string, k: Keyword)
    requires k != NotAKeyword
    ensures KeywordOf(Lower(rule)) == k <==> Spelled(rule, k)
    ensures Is(rule, "reset") ==> KeywordOf(Lower(rule)) == NotAKeyword
  {
    KeywordSpelled(rule);
    WordKeywords();
    hide KeywordOf, Lower, Spelled;
    if Spelled(rule, k) {
      SpelledKeyword(rule, k);
    }
  }

  /** Rules with a sign are words only if they are one of these. */
  lemma SignedWords(rule: string)
    requires Signed(rule)
    ensures !Is(rule, "reset")
    ensures
      var k := KeywordOf(Lower(rule));
      && k in {NotAKeyword, AllKeys, AllChannels, AllCommands, NoCommands}
      && (k == AllKeys ==> Starts(rule, '~')) && (k == AllChannels ==> Starts(rule, '&'))
      && (k in {AllCommands, NoCommands} ==> Starts(rule, '+') || Starts(rule, '-'))
  {
    var w := Lower(rule);
    assert w[0] == LowerChar(rule[0]);
    assert "on"[0] == 'o' && "off"[0] == 'o' && "skip-sanitize-payload"[0] == 's' && "sanitize-payload"[0] == 's';
    assert "allkeys"[0] == 'a' && "resetkeys"[0] == 'r' && "allchannels"[0] == 'a' && "resetchannels"[0] == 'r';
    assert "allcommands"[0] == 'a' && "nocommands"[0] == 'n' && "nopass"[0] == 'n' && "resetpass"[0] == 'r';
    assert "reset"[0] == 'r' && "+@all"[0] == '+' && "-@all"[0] == '-' && "~*"[0] == '~' && "&*"[0] == '&';
  }

  lemma StaysAccess(env: Env, u: User, rule: string)
    requires rule != "" && (rule[0] == '+' || rule[0] == '-') && Shaped(u.perms) && TableOk(env.commands)
    ensures CommandRule(env, u, rule).Ok? ==> CommandRule(env, u, rule).user.access == u.access
  {
    hide Find, FindCategory, SetCategory, SetCommand, AddSub, Bit, TableOk, Bar;
  }

  // ------------------------------------------------------------------
  // The access part after a rule, kind by kind

  /** What an accepted rule leaves, or the user as it was. */
  function Kept(r: Outcome, u: User): Access {
    match r
    case Ok(v) => v.access
    case Err(_) => u.access
  }

  predicate ForPasswords(rule: string) {
    Starts(rule, '>') || Starts(rule, '#') || Starts(rule, '<') || Starts(rule, '!')
  }

  lemma WordAccess(env: Env, u: User, rule: string)
    requires Shaped(u.perms) && TableOk(env.commands) && KeywordOf(Lower(rule)) != NotAKeyword
    ensures After(env, u, rule).access == KeywordRule(u, KeywordOf(Lower(rule))).access
  {
    hide KeywordRule, CommandRule, PasswordRule, KeyRule, ChannelRule, TableOk;
    assert Lower("") == "" && KeywordOf("") == NotAKeyword;
    hide KeywordOf, Lower;
  }

  lemma SignAccess(env: Env, u: User, rule: string)
    requires Shaped(u.perms) && TableOk(env.commands) && KeywordOf(Lower(rule)) == NotAKeyword && Signed(rule)
    ensures After(env, u, rule).access ==
      if ForPasswords(rule) then Kept(PasswordRule(env, u, rule), u)
      else if Starts(rule, '~') then Kept(KeyRule(u, rule), u)
      else if Starts(rule, '&') then Kept(ChannelRule(u, rule), u)
      else u.access
  {
    hide KeywordOf, Lower, KeywordRule, CommandRule, PasswordRule, KeyRule, ChannelRule, TableOk;
    if Starts(rule, '+') || Starts(rule, '-') {
      StaysAccess(env, u, rule);
    }
  }

  lemma PlainAccess(env: Env, u: User, rule: string)
    requires Shaped(u.perms) && TableOk(env.commands) && KeywordOf(Lower(rule)) == NotAKeyword && !Signed(rule)
    ensures After(env, u, rule).access == if Is(rule, "reset") then ResetAccess(env, u.access) else u.access
  {
    assert Is(rule, "reset") ==> rule != "";
    hide KeywordOf, Lower, KeywordRule, CommandRule, PasswordRule, KeyRule, ChannelRule, ResetAccess, TableOk;
  }

  // ------------------------------------------------------------------
  // The words

  /** The words about logging in and about the scope, and what else a rule can be. */
  ghost predicate LoginWords(rule: string) {
    var k := KeywordOf(Lower(rule));
    && (k == On <==> Is(rule, "on")) && (k == Off <==> Is(rule, "off"))
    && (k == NoPass <==> Is(rule, "nopass")) && (k == ResetPass <==> Is(rule, "resetpass"))
    && (Is(rule, "reset") ==> k == NotAKeyword && !Signed(rule))
    && (k != NotAKeyword ==> !ForPasswords(rule))
  }

  ghost predicate ScopeWords(rule: string) {
    var k := KeywordOf(Lower(rule));
    && (k == AllKeys <==> Is(rule, "allkeys") || Is(rule, "~*")) && (k == ResetKeys <==> Is(rule, "resetkeys"))
    && (k == AllChannels <==> Is(rule, "allchannels") || Is(rule, "&*"))
    && (k == ResetChannels <==> Is(rule, "resetchannels"))
    && (Is(rule, "reset") ==> k == NotAKeyword && !Signed(rule))
    && (k != NotAKeyword && k != AllKeys ==> !Starts(rule, '~'))
    && (k != NotAKeyword && k != AllChannels ==> !Starts(rule, '&'))
  }

  lemma Login(rule: string)
    ensures LoginWords(rule)
  {
    hide Lower, KeywordOf, Is;
    Keywords(rule, On);
    Keywords(rule, Off);
    Keywords(rule, NoPass);
    Keywords(rule, ResetPass);
    if Signed(rule) {
      SignedWords(rule);
    }
  }

  lemma Scope(rule: string)
    ensures ScopeWords(rule)
  {
    hide Lower, KeywordOf, Is;
    Keywords(rule, AllKeys);
    Keywords(rule, ResetKeys);
    Keywords(rule, AllChannels);
    Keywords(rule, ResetChannels);
    if Signed(rule) {
      SignedWords(rule);
    }
  }

  // ------------------------------------------------------------------
  // What each kind of rule does

  lemma KeywordScopes(u: User, k: Keyword)
    ensures
      var a, b := KeywordRule(u, k).access, u.access;
      && a.allKeys == (k == AllKeys || (k != ResetKeys && b.allKeys))
      && a.patterns == (if k == AllKeys || k == ResetKeys then [] else b.patterns)
      && a.allChannels == (k == AllChannels || (k != ResetChannels && b.allChannels))
      && a.channels == (if k == AllChannels || k == ResetChannels then [] else b.channels)
  {
    hide SetAll;
  }

  lemma KeywordLogin(u: User, k: Keyword)
    ensures
      var a, b := KeywordRule(u, k).access, u.access;
      && a.enabled == (k == On || (k != Off && b.enabled))
      && a.noPass == (k == NoPass || (k != ResetPass && b.noPass))
      && a.passwords == (if k == NoPass || k == ResetPass then [] else b.passwords)
  {
    hide SetAll;
  }

  /** The password that a rule is about, as it is kept. */
  function PasswordOf(env: Env, rule: string): string
    requires rule != ""
  {
    if rule[0] == '>' || rule[0] == '<' then env.hash(rule[1..]) else rule[1..]
  }

  lemma PasswordAdded(env: Env, u: User, rule: string)
    requires Starts(rule, '>') || (Starts(rule, '#') && IsHash(rule[1..]))
    ensures Kept(PasswordRule(env, u, rule), u)
         == u.access.(passwords := AddOnce(u.access.passwords, PasswordOf(env, rule)), noPass := false)
  {
    hide IsHash, AddOnce;
  }

  lemma PasswordRemoved(env: Env, u: User, rule: string)
    requires Starts(rule, '<') || (Starts(rule, '!') && IsHash(rule[1..]))
    ensures
      var x := PasswordOf(env, rule);
      Kept(PasswordRule(env, u, rule), u)
      == if x in u.access.passwords then u.access.(passwords := Without(u.access.passwords, x)) else u.access
  {
    hide IsHash, Without;
  }

  lemma PasswordRefused(env: Env, u: User, rule: string)
    requires (Starts(rule, '#') || Starts(rule, '!')) && !IsHash(rule[1..])
    ensures Kept(PasswordRule(env, u, rule), u) == u.access
  {
    hide IsHash;
  }

  lemma PasswordKept(env: Env, u: User, rule: string)
    requires ForPasswords(rule)
    ensures
      var a, b := Kept(PasswordRule(env, u, rule), u), u.access;
      && a.allKeys == b.allKeys && a.patterns == b.patterns
      && a.allChannels == b.allChannels && a.channels == b.channels
      && a.enabled == b.enabled && a.skipSanitize == b.skipSanitize
      && a.noPass == (b.noPass && !(Starts(rule, '>') || (Starts(rule, '#') && IsHash(rule[1..]))))
  {
    hide IsHash, AddOnce, Without, PasswordRule, Kept, PasswordOf;
    if Starts(rule, '>') || (Starts(rule, '#') && IsHash(rule[1..])) {
      PasswordAdded(env, u, rule);
    } else if Starts(rule, '<') || (Starts(rule, '!') && IsHash(rule[1..])) {
      PasswordRemoved(env, u, rule);
    } else {
      PasswordRefused(env, u, rule);
    }
  }

  lemma PasswordMembers(env: Env, u: User, rule: string, h: string)
    requires ForPasswords(rule) && PasswordsOk(u.access.passwords)
    ensures
      var before := u.access.passwords;
      h in Kept(PasswordRule(env, u, rule), u).passwords <==>
        if Starts(rule, '>') then h in before || h == env.hash(rule[1..])
        else if Starts(rule, '#') then h in before || (h == rule[1..] && IsHash(h))
        else if Starts(rule, '<') then h in before && h != env.hash(rule[1..])
        else h in before && h != rule[1..]
  {
    hide IsHash, AddOnce, Without, PasswordRule, Kept, NoRepeats, PasswordsOk, PasswordOf;
    PasswordNamed(env, rule);
    if Starts(rule, '>') || (Starts(rule, '#') && IsHash(rule[1..])) {
      MembersAdded(env, u, rule, h);
    } else if Starts(rule, '<') || (Starts(rule, '!') && IsHash(rule[1..])) {
      MembersRemoved(env, u, rule, h);
    } else {
      PasswordRefused(env, u, rule);
      if h in u.access.passwords {
        AllHashes(u.access.passwords, h);
      }
    }
  }

  lemma PasswordNamed(env: Env, rule: string)
    requires ForPasswords(rule)
    ensures PasswordOf(env, rule) == if Starts(rule, '>') || Starts(rule, '<') then env.hash(rule[1..]) else rule[1..]
  {
  }

  lemma AllHashes(s: seq<string>, h: string)
    requires PasswordsOk(s) && h in s
    ensures IsHash(h)
  {
    hide IsHash;
  }

  lemma MembersAdded(env: Env, u: User, rule: string, h: string)
    requires Starts(rule, '>') || (Starts(rule, '#') && IsHash(rule[1..]))
    ensures h in Kept(PasswordRule(env, u, rule), u).passwords <==>
      h in u.access.passwords || h == PasswordOf(env, rule)
  {
    hide IsHash, PasswordRule, Kept, PasswordOf;
    PasswordAdded(env, u, rule);
  }

  lemma MembersRemoved(env: Env, u: User, rule: string, h: string)
    requires PasswordsOk(u.access.passwords)
    requires Starts(rule, '<') || (Starts(rule, '!') && IsHash(rule[1..]))
    ensures h in Kept(PasswordRule(env, u, rule), u).passwords <==>
      h in u.access.passwords && h != PasswordOf(env, rule)
  {
    hide IsHash, PasswordRule, Kept, PasswordOf, Without, NoRepeats;
    PasswordRemoved(env, u, rule);
    WithoutOk(u.access.passwords, PasswordOf(env, rule));
  }

  lemma KeyKept(u: User, rule: string, x: string)
    requires Starts(rule, '~')
    ensures
      var a, b := Kept(KeyRule(u, rule), u), u.access;
      && a == b.(patterns := a.patterns)
      && (x in a.patterns <==> x in b.patterns || (rule == ['~'] + x && !b.allKeys && !HasSpaces(x)))
  {
    TildeOf('~', rule, x);
    hide HasSpaces;
  }

  lemma ChannelKept(u: User, rule: string, x: string)
    requires Starts(rule, '&')
    ensures
      var a, b := Kept(ChannelRule(u, rule), u), u.access;
      && a == b.(channels := a.channels)
      && (x in a.channels <==> x in b.channels || (rule == ['&'] + x && !b.allChannels && !HasSpaces(x)))
  {
    TildeOf('&', rule, x);
    hide HasSpaces;
  }

  lemma ResetLeaves(env: Env, a: Access)
    ensures
      var b := ResetAccess(env, a);
      && !b.enabled && !b.noPass && b.passwords == [] && !b.allKeys && b.patterns == []
      && b.allChannels == env.allChannels && b.channels == []
  {
  }

  // ------------------------------------------------------------------
  // Every rule

  /** The facts about the access part that the results below rest on. */
  lemma Facts(env: Env, u: User, rule: string)
    requires EnvOk(env) && UserOk(env, u)
    ensures Shaped(u.perms) && LoginWords(rule) && ScopeWords(rule)
    ensures
      var k, a := KeywordOf(Lower(rule)), After(env, u, rule).access;
      if k != NotAKeyword then a == KeywordRule(u, k).access
      else if ForPasswords(rule) then a == Kept(PasswordRule(env, u, rule), u)
      else if Starts(rule, '~') then a == Kept(KeyRule(u, rule), u)
      else if Starts(rule, '&') then a == Kept(ChannelRule(u, rule), u)
      else if Is(rule, "reset") then a == ResetAccess(env, u.access)
      else a == u.access
  {
    assert Shaped(u.perms);
    hide PermsOk, AccessOk, TableOk, CategoriesOk, KeywordOf, Lower, Is, After, LoginWords, ScopeWords, ResetAccess;
    Login(rule);
    Scope(rule);
    assert Is(rule, "reset") ==> !Signed(rule) by { NotSigned(rule); }
    if KeywordOf(Lower(rule)) != NotAKeyword {
      WordAccess(env, u, rule);
    } else if Signed(rule) {
      SignAccess(env, u, rule);
    } else {
      PlainAccess(env, u, rule);
    }
  }

  lemma NotSigned(rule: string)
    ensures Is(rule, "reset") ==> !Signed(rule)
  {
    hide Lower, KeywordOf, Is;
    Login(rule);
  }

  /** Which passwords are accepted: `>` and `#` add one, as text or as hash, `<` and `!` remove one, and the words that
      drop the list leave none. Nothing else touches them. */
  lemma PasswordsAfter(env: Env, u: User, rule: string, h: string)
    requires EnvOk(env) && UserOk(env, u)
    ensures
      var before := u.access.passwords;
      h in After(env, u, rule).access.passwords <==>
        if Is(rule, "nopass") || Is(rule, "resetpass") || Is(rule, "reset") then false
        else if Starts(rule, '>') then h in before || h == env.hash(rule[1..])
        else if Starts(rule, '#') then h in before || (h == rule[1..] && IsHash(h))
        else if Starts(rule, '<') then h in before && h != env.hash(rule[1..])
        else if Starts(rule, '!') then h in before && h != rule[1..]
        else h in before
  {
    hide PermsOk, TableOk, CategoriesOk, KeywordOf, Lower, Is, After, ScopeWords, ResetAccess, Kept, KeywordRule,
         PasswordRule, KeyRule, ChannelRule, IsHash, HasSpaces, PasswordsOk, PatternsOk;
    Facts(env, u, rule);
    KeywordLogin(u, KeywordOf(Lower(rule)));
    ResetLeaves(env, u.access);
    if ForPasswords(rule) {
      PasswordMembers(env, u, rule, h);
    } else if Starts(rule, '~') {
      KeyKept(u, rule, h);
    } else if Starts(rule, '&') {
      ChannelKept(u, rule, h);
    }
  }

  /** Whether any password is accepted: exactly after `nopass`, until a password is added or the list is reset. */
  lemma NoPassAfter(env: Env, u: User, rule: string)
    requires EnvOk(env) && UserOk(env, u)
    ensures After(env, u, rule).access.noPass <==>
      if Is(rule, "nopass") then true
      else if Is(rule, "resetpass") || Is(rule, "reset") then false
      else if Starts(rule, '>') || (Starts(rule, '#') && IsHash(rule[1..])) then false
      else u.access.noPass
  {
    hide PermsOk, AccessOk, TableOk, CategoriesOk, KeywordOf, Lower, Is, After, ScopeWords, ResetAccess, Kept,
         KeywordRule, PasswordRule, KeyRule, ChannelRule, IsHash, HasSpaces;
    Facts(env, u, rule);
    KeywordLogin(u, KeywordOf(Lower(rule)));
    ResetLeaves(env, u.access);
    if ForPasswords(rule) {
      PasswordKept(env, u, rule);
    } else if Starts(rule, '~') {
      KeyKept(u, rule, "");
    } else if Starts(rule, '&') {
      ChannelKept(u, rule, "");
    }
  }

  /** Whether the user may log in at all. */
  lemma EnabledAfter(env: Env, u: User, rule: string)
    requires EnvOk(env) && UserOk(env, u)
    ensures After(env, u, rule).access.enabled <==>
      if Is(rule, "on") then true else if Is(rule, "off") || Is(rule, "reset") then false else u.access.enabled
  {
    hide PermsOk, AccessOk, TableOk, CategoriesOk, KeywordOf, Lower, Is, After, ScopeWords, ResetAccess, Kept,
         KeywordRule, PasswordRule, KeyRule, ChannelRule, IsHash, HasSpaces;
    Facts(env, u, rule);
    KeywordLogin(u, KeywordOf(Lower(rule)));
    ResetLeaves(env, u.access);
    if ForPasswords(rule) {
      PasswordKept(env, u, rule);
    } else if Starts(rule, '~') {
      KeyKept(u, rule, "");
    } else if Starts(rule, '&') {
      ChannelKept(u, rule, "");
    }
  }

  /** Whether the payloads of RESTORE are checked. */
  lemma SanitizeAfter(env: Env, u: User, rule: string)
    requires EnvOk(env) && UserOk(env, u)
    ensures After(env, u, rule).access.skipSanitize <==>
      if Is(rule, "skip-sanitize-payload") then true
      else if Is(rule, "sanitize-payload") || Is(rule, "reset") then false
      else u.access.skipSanitize
  {
    hide PermsOk, AccessOk, TableOk, CategoriesOk, KeywordOf, Lower, Is, After, ScopeWords, LoginWords, ResetAccess,
         Kept, KeywordRule, PasswordRule, KeyRule, ChannelRule, IsHash, HasSpaces;
    Facts(env, u, rule);
    Keywords(rule, SkipSanitize);
    Keywords(rule, Sanitize);
    SanitizeWords(env, u, KeywordOf(Lower(rule)));
    if Signed(rule) {
      SignedWords(rule);
    }
    if ForPasswords(rule) {
      PasswordKept(env, u, rule);
    } else if Starts(rule, '~') {
      KeyKept(u, rule, "");
    } else if Starts(rule, '&') {
      ChannelKept(u, rule, "");
    }
  }

  lemma SanitizeWords(env: Env, u: User, k: Keyword)
    ensures KeywordRule(u, k).access.skipSanitize == (k == SkipSanitize || (k != Sanitize && u.access.skipSanitize))
    ensures !ResetAccess(env, u.access).skipSanitize
  {
    hide SetAll;
  }

  /** A new user cannot log in, has no password and may touch no key; channels are as the server says. */
  lemma NewUser(env: Env)
    ensures
      var a := Fresh(env).access;
      && !a.enabled && !a.noPass && a.passwords == [] && !a.allKeys && a.patterns == []
      && a.allChannels == env.allChannels && a.channels == [] && !a.skipSanitize
  {
  }

  /** Which keys: all of them after `allkeys`, otherwise the patterns given since the last reset. A pattern is refused
      while all keys are allowed, and when it has spaces. */
  lemma KeysAfter(env: Env, u: User, rule: string, x: string)
    requires EnvOk(env) && UserOk(env, u)
    ensures
      var a := After(env, u, rule).access;
      if Is(rule, "allkeys") || Is(rule, "~*") then a.allKeys && x !in a.patterns
      else if Is(rule, "resetkeys") || Is(rule, "reset") then !a.allKeys && x !in a.patterns
      else
        && a.allKeys == u.access.allKeys
        && (x in a.patterns <==> x in u.access.patterns || (rule == ['~'] + x && !u.access.allKeys && !HasSpaces(x)))
  {
    hide PermsOk, AccessOk, TableOk, CategoriesOk, KeywordOf, Lower, Is, After, LoginWords, ResetAccess, Kept,
         KeywordRule, PasswordRule, KeyRule, ChannelRule, IsHash, HasSpaces;
    Facts(env, u, rule);
    KeywordScopes(u, KeywordOf(Lower(rule)));
    ResetLeaves(env, u.access);
    TildeOf('~', rule, x);
    if ForPasswords(rule) {
      PasswordKept(env, u, rule);
    } else if Starts(rule, '~') {
      KeyKept(u, rule, x);
    } else if Starts(rule, '&') {
      ChannelKept(u, rule, x);
    }
  }

  /** Which channels, in the same way; `reset` goes back to the default of the server. */
  lemma ChannelsAfter(env: Env, u: User, rule: string, x: string)
    requires EnvOk(env) && UserOk(env, u)
    ensures
      var a := After(env, u, rule).access;
      if Is(rule, "allchannels") || Is(rule, "&*") then a.allChannels && x !in a.channels
      else if Is(rule, "resetchannels") then !a.allChannels && x !in a.channels
      else if Is(rule, "reset") then a.allChannels == env.allChannels && x !in a.channels
      else
        && a.allChannels == u.access.allChannels
        && (x in a.channels <==>
              x in u.access.channels || (rule == ['&'] + x && !u.access.allChannels && !HasSpaces(x)))
  {
    hide PermsOk, AccessOk, TableOk, CategoriesOk, KeywordOf, Lower, Is, After, LoginWords, ResetAccess, Kept,
         KeywordRule, PasswordRule, KeyRule, ChannelRule, IsHash, HasSpaces;
    Facts(env, u, rule);
    KeywordScopes(u, KeywordOf(Lower(rule)));
    ResetLeaves(env, u.access);
    TildeOf('&', rule, x);
    if ForPasswords(rule) {
      PasswordKept(env, u, rule);
    } else if Starts(rule, '~') {
      KeyKept(u, rule, x);
    } else if Starts(rule, '&') {
      ChannelKept(u, rule, x);
    }
  }

  lemma TildeOf(c: char, rule: string, x: string)
    ensures rule == [c] + x <==> Starts(rule, c) && rule[1..] == x
  {
    assert Starts(rule, c) ==> rule == [c] + rule[1..];
  }

  /** `reset` takes every user back to a new one but for one flag: it records that payloads are checked, which a new
      user has not recorded. A reset user is therefore never the same as a new one, although both may do the same. */
  lemma ResetIsNotNew(env: Env, u: User)
    requires Shaped(u.perms) && TableOk(env.commands)
    ensures
      var fresh_, v := Fresh(env), After(env, u, "reset");
      && v == fresh_.(access := fresh_.access.(sanitize := true)) && v != fresh_
      && v.access.skipSanitize == fresh_.access.skipSanitize
  {
    WordKeywords();
    assert Lower("reset") == "reset" && "reset"[0] == 'r';
    hide KeywordOf, Lower, CommandRule, PasswordRule, KeyRule, ChannelRule, KeywordRule, SetAll, TableOk;
  }

  // ------------------------------------------------------------------
  // Which rules are refused

  ghost predicate IsWord(rule: string) {
    rule == "" || Is(rule, "reset") || exists k :: k != NotAKeyword && Spelled(rule, k)
  }

  ghost predicate KnownCommand(env: Env, name: string) {
    exists k :: 0 <= k < |env.commands| && Lower(env.commands[k].name) == Lower(name)
  }

  ghost predicate KnownCategory(env: Env, name: string) {
    exists j :: 0 <= j < |env.categories| && Lower(env.categories[j]) == Lower(name)
  }

  /** A rule that starts with `+` or `-`, without its sign: a category, a command, or a subcommand to be added. */
  ghost function SignedRefusal(env: Env, x: string, plus: bool): Option<Error> {
    if Starts(x, '@') then if KnownCategory(env, x[1..]) then None else Some(ENOENT)
    else if plus && '|' in x then
      var name, sub := x[..Bar(x)], x[Bar(x)..];
      if !KnownCommand(env, name) then Some(ENOENT) else if |sub| == 1 then Some(EINVAL) else None
    else if KnownCommand(env, x) then None
    else Some(ENOENT)
  }

  /** The error of a rule, if it is refused. */
  ghost function Refusal(env: Env, u: User, rule: string): Option<Error> {
    if IsWord(rule) then None
    else if Starts(rule, '+') || Starts(rule, '-') then SignedRefusal(env, rule[1..], rule[0] == '+')
    else if (Starts(rule, '#') || Starts(rule, '!')) && !IsHash(rule[1..]) then Some(EBADMSG)
    else if Starts(rule, '>') || Starts(rule, '#') then None
    else if Starts(rule, '<') then if env.hash(rule[1..]) in u.access.passwords then None else Some(ENODEV)
    else if Starts(rule, '!') then if rule[1..] in u.access.passwords then None else Some(ENODEV)
    else if Starts(rule, '~') && u.access.allKeys then Some(EEXIST)
    else if Starts(rule, '&') && u.access.allChannels then Some(EISDIR)
    else if (Starts(rule, '~') || Starts(rule, '&')) && !HasSpaces(rule[1..]) then None
    else Some(EINVAL)
  }

  lemma KnownIffFound(env: Env, name: string)
    ensures KnownCommand(env, name) <==> Find(env.commands, name) < |env.commands|
  {
    if k :| 0 <= k < |env.commands| && Lower(env.commands[k].name) == Lower(name) {
      assert SameName(env.commands[k].name, name);
    }
  }

  lemma CategoryIffFound(env: Env, name: string)
    ensures KnownCategory(env, name) <==> FindCategory(env.categories, name) < |env.categories|
  {
    if j :| 0 <= j < |env.categories| && Lower(env.categories[j]) == Lower(name) {
      assert SameName(name, env.categories[j]);
    }
  }

  lemma SignedRefused(env: Env, u: User, rule: string)
    requires EnvOk(env) && UserOk(env, u) && rule != "" && (rule[0] == '+' || rule[0] == '-')
    ensures
      var r, e := CommandRule(env, u, rule), SignedRefusal(env, rule[1..], rule[0] == '+');
      match r case Ok(_) => e == None case Err(error) => e == Some(error)
  {
    hide KnownCommand, KnownCategory, Find, FindCategory, SetCommand, SetCategory, AddSub, PermsOk, AccessOk, TableOk,
         Bit, CategoriesOk, Bar, Lower;
    var x := rule[1..];
    LowerBar(x);
    if Starts(x, '@') {
      CategoryIffFound(env, x[1..]);
      assert rule[2..] == x[1..] && rule[1] == '@';
    } else if rule[0] == '+' && '|' in x {
      KnownIffFound(env, x[..Bar(x)]);
      assert rule[1] == x[0];
      assert x[Bar(x) + 1..] == x[Bar(x)..][1..];
    } else {
      KnownIffFound(env, x);
      assert x != "" ==> rule[1] == x[0];
    }
  }

  lemma WordIffKeyword(rule: string)
    ensures IsWord(rule) <==> rule == "" || Is(rule, "reset") || KeywordOf(Lower(rule)) != NotAKeyword
  {
    hide Spelled, Is, KeywordOf, Lower;
    KeywordSpelled(rule);
    if k :| k != NotAKeyword && Spelled(rule, k) {
      SpelledKeyword(rule, k);
    }
  }

  /** A rule is refused, with this error, in these cases and no others. */
  lemma RefusedIff(env: Env, u: User, rule: string)
    requires EnvOk(env) && UserOk(env, u)
    ensures Shaped(u.perms)
    ensures
      var r, e := Apply(env, u, rule), Refusal(env, u, rule);
      match r case Ok(_) => e == None case Err(error) => e == Some(error)
  {
    assert Shaped(u.perms);
    WordIffKeyword(rule);
    if Signed(rule) {
      SignedWords(rule);
    }
    if Starts(rule, '+') || Starts(rule, '-') {
      SignedRefused(env, u, rule);
    }
    hide IsWord, KeywordOf, KeywordRule, CommandRule, SignedRefusal, IsHash, HasSpaces, PermsOk, AccessOk, TableOk,
         CategoriesOk, SetAll, ResetAccess, Without, AddOnce, Lower;
  }
}
