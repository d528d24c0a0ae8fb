/**
 * menvironment.c: reading the environment (get_environment), the bounded
 * comparison it uses (stringtwocmp), and the parsing of setenv / unsetenv
 * command lines (process_env_command).
 */
module MEnvironment {
  import opened Wrappers
  import opened CLib
  import opened Environment

  // ---------------------------------------------------------------------
  // stringtwocmp

  /**
   * What stringtwocmp(a, b, n) returns once the first i characters agree:
   * the difference of the first differing characters, or 0 when n is
   * reached or both strings end at the same position. A string ends at its
   * length (where its NUL terminator sits).
   */
  function CompareFrom(a: string, b: string, n: nat, i: nat): (r: int)
    requires i <= |a|
    ensures r == 0 <==> forall j :: i <= j < n && j <= |a| ==> CharAt(a, j) == CharAt(b, j)
    ensures r != 0 ==> exists k :: i <= k < n && k <= |a| && CharAt(a, k) != CharAt(b, k)
                                   && r == CharAt(a, k) as int - CharAt(b, k) as int
                                   && forall j :: i <= j < k ==> CharAt(a, j) == CharAt(b, j)
    decreases n - i
  {
    if i >= n then 0
    else if CharAt(a, i) != CharAt(b, i) then CharAt(a, i) as int - CharAt(b, i) as int
    else if i == |a| then 0
    else CompareFrom(a, b, n, i + 1)
  }

  function Compare(a: string, b: string, n: nat): int {
    CompareFrom(a, b, n, 0)
  }

  /**
   * stringtwocmp: 0 when the first n characters agree or both strings end
   * together before n, otherwise the difference of the first differing
   * characters (whose sign gives the order).
   */
  method StringTwoCmp(str1: string, str2: string, n: nat) returns (r: int)
    ensures r == Compare(str1, str2, n)
    ensures r == 0 <==> forall j :: 0 <= j < n && j <= |str1| ==> CharAt(str1, j) == CharAt(str2, j)
  {
    var i := 0;
    while i < n
      invariant i <= |str1|
      invariant Compare(str1, str2, n) == CompareFrom(str1, str2, n, i)
    {
      if CharAt(str1, i) != CharAt(str2, i) {
        return CharAt(str1, i) as int - CharAt(str2, i) as int;
      }
      if i == |str1| {
        return 0;
      }
      i := i + 1;
    }
    return 0;
  }

  /** With n == 0 nothing is compared. */
  lemma CompareZeroLength(a: string, b: string)
    ensures Compare(a, b, 0) == 0
  {
  }

  /**
   * stringtwocmp(s, p, strlen(p)) == 0 is a prefix test, for a pattern
   * without NUL characters (the literals "env" and "cd" of main).
   */
  lemma {:induction false} ComparePrefix(s: string, p: string)
    requires forall i :: 0 <= i < |p| ==> p[i] != '\0'
    ensures Compare(s, p, |p|) == 0 <==> StartsWith(s, p)
  {
    if |s| < |p| {
      assert CharAt(s, |s|) != CharAt(p, |s|);
    }
    if Compare(s, p, |p|) == 0 {
      forall i | 0 <= i < |p| ensures s[i] == p[i] {
        assert CharAt(s, i) == CharAt(p, i);
      }
      assert s[..|p|] == p;
    }
    if StartsWith(s, p) {
      forall j | 0 <= j < |p| && j <= |s| ensures CharAt(s, j) == CharAt(p, j) {
        assert s[..|p|][j] == p[j];
      }
    }
  }

  /** get_environment's test is set_environment's test. */
  lemma MatchIsDefines(entry: string, name: string)
    ensures (Compare(entry, name, |name|) == 0 && CharAt(entry, |name|) == '=') <==> Defines(entry, name)
  {
  }

  // ---------------------------------------------------------------------
  // get_environment

  /**
   * The value get_environment finds: the text after '=' in the first entry,
   * in array order, whose name is exactly `name`.
   */
  function Lookup(vars: seq<string>, name: string): (r: Option<string>)
    ensures r.None? <==> forall i :: 0 <= i < |vars| ==> !StartsWith(vars[i], name + "=")
    ensures r.Some? ==> exists i :: 0 <= i < |vars| && vars[i] == name + "=" + r.value
                                    && forall j :: 0 <= j < i ==> !StartsWith(vars[j], name + "=")
  {
    DefinesIsPrefixEverywhere(vars, name);
    match FindIndex(vars, name)
    case Some(i) =>
      var entry := vars[i];
      assert entry == entry[..|name| + 1] + entry[|name| + 1..];
      Some(entry[|name| + 1..])
    case None => None
  }

  lemma {:induction false} DefinesIsPrefixEverywhere(vars: seq<string>, name: string)
    ensures forall i :: 0 <= i < |vars| ==> (Defines(vars[i], name) <==> StartsWith(vars[i], name + "="))
  {
    forall i | 0 <= i < |vars| ensures Defines(vars[i], name) <==> StartsWith(vars[i], name + "=") {
      DefinesIsPrefix(vars[i], name);
    }
  }

  /**
   * get_environment: NULL for a NULL name; otherwise a copy of the value of
   * the first entry whose name is exactly `name`, or NULL when none is.
   */
  method GetEnvironment(env: Environ, name: Option<string>) returns (value: Option<string>)
    ensures name.None? ==> value.None?
    ensures name.Some? ==> value == Lookup(env.vars, name.value)
  {
    if name.None? {
      return None;
    }
    var n := name.value;
    var nameLength := |n|;
    var i := 0;
    while i < |env.vars|
      invariant 0 <= i <= |env.vars|
      invariant forall j :: 0 <= j < i ==> !Defines(env.vars[j], n)
    {
      var entry := env.vars[i];
      var c := StringTwoCmp(entry, n, nameLength);
      MatchIsDefines(entry, n);
      if c == 0 && CharAt(entry, nameLength) == '=' {
        assert FindIndex(env.vars, n) == Some(i);
        return Some(entry[nameLength + 1..]);
      }
      i := i + 1;
    }
    assert FindIndex(env.vars, n) == None;
    return None;
  }

  // ---------------------------------------------------------------------
  // Round trips between set_environment, remove_environment and lookup

  /** After a successful set_environment(n, v, 1, _), get_environment(n) is v. */
  lemma {:induction false} SetThenGet(vars: seq<string>, name: string, value: string)
    ensures Lookup(Assigned(vars, name, value, true), name) == Some(value)
  {
    var entry := name + "=" + value;
    DefinesIsPrefix(entry, name);
    assert entry[..|name| + 1] == name + "=";
    var after := Assigned(vars, name, value, true);
    match FindIndex(vars, name)
    case Some(i) =>
      assert after == vars[i := entry];
      FindIndexIs(after, name, i);
      assert entry[|name| + 1..] == value;
    case None =>
      assert after == vars + [entry];
      FindIndexIs(after, name, |vars|);
      assert entry[|name| + 1..] == value;
  }

  /** Without overwrite, an existing value is kept. */
  lemma {:induction false} SetWithoutOverwriteKeeps(vars: seq<string>, name: string, value: string)
    requires Lookup(vars, name).Some?
    ensures Lookup(Assigned(vars, name, value, false), name) == Lookup(vars, name)
  {
    DefinesIsPrefixEverywhere(vars, name);
  }

  /**
   * Setting a name leaves the lookup of every other name alone, as long as
   * neither name is the other followed by '=' and more.
   */
  lemma {:induction false} SetLeavesOtherNames(vars: seq<string>, name: string, value: string, overwrite: bool, other: string)
    requires other != name && !StartsWith(other, name + "=") && !StartsWith(name, other + "=")
    ensures Lookup(Assigned(vars, name, value, overwrite), other) == Lookup(vars, other)
  {
    var entry := name + "=" + value;
    DefinesBoth(entry, name, other);
    var after := Assigned(vars, name, value, overwrite);
    match FindIndex(vars, name)
    case Some(i) =>
      DefinesBoth(vars[i], name, other);
      if overwrite {
        assert after == vars[i := entry];
        SameLookup(vars, after, other, i);
      }
    case None =>
      assert after == vars + [entry];
      assert after[..|vars|] == vars;
      AppendedLookup(vars, entry, other);
  }

  /**
   * An entry that defines two names defines them as the same name, or one
   * name is the other followed by '=' and more.
   */
  lemma {:induction false} DefinesBoth(entry: string, name: string, other: string)
    ensures Defines(entry, name) && Defines(entry, other) ==>
      name == other || StartsWith(other, name + "=") || StartsWith(name, other + "=")
  {
    DefinesIsPrefix(entry, name);
    DefinesIsPrefix(entry, other);
    if Defines(entry, name) && Defines(entry, other) {
      if |name| == |other| {
        assert name == entry[..|name|] == other;
      } else if |name| < |other| {
        assert other[..|name| + 1] == entry[..|name| + 1] == name + "=";
      } else {
        assert name[..|other| + 1] == entry[..|other| + 1] == other + "=";
      }
    }
  }

  /** FindIndex is determined by its contract. */
  lemma FindIndexIs(vars: seq<string>, name: string, i: nat)
    requires i < |vars| && Defines(vars[i], name)
    requires forall j :: 0 <= j < i ==> !Defines(vars[j], name)
    ensures FindIndex(vars, name) == Some(i)
  {
  }

  lemma {:induction false} SameLookup(vars: seq<string>, after: seq<string>, other: string, i: nat)
    requires |after| == |vars| && i < |vars|
    requires forall j :: 0 <= j < |vars| && j != i ==> after[j] == vars[j]
    requires !Defines(vars[i], other) && !Defines(after[i], other)
    ensures Lookup(after, other) == Lookup(vars, other)
  {
    assert forall j :: 0 <= j < |vars| ==> (Defines(after[j], other) <==> Defines(vars[j], other));
    match FindIndex(vars, other)
    case Some(k) => assert FindIndex(after, other) == Some(k);
    case None => assert FindIndex(after, other) == None;
  }

  lemma {:induction false} AppendedLookup(vars: seq<string>, entry: string, other: string)
    requires !Defines(entry, other)
    ensures Lookup(vars + [entry], other) == Lookup(vars, other)
  {
    var after := vars + [entry];
    match FindIndex(vars, other)
    case Some(k) => FindIndexIs(after, other, k);
    case None => assert FindIndex(after, other) == None;
  }

  /** After remove_environment(n) no entry is found for n. */
  lemma {:induction false} RemoveThenGet(vars: seq<string>, name: string)
    ensures Lookup(Removed(vars, name), name) == None
  {
    var after := Removed(vars, name);
    forall i | 0 <= i < |after| ensures !Defines(after[i], name) {
      var e := after[i];
      RemovedMembers(vars, name, e);
      DefinedNotKept(e, name);
    }
    assert FindIndex(after, name) == None;
  }

  /** remove_environment drops every entry that defines the name. */
  lemma {:induction false} DefinedNotKept(e: string, name: string)
    ensures Defines(e, name) ==> !Kept(e, name)
  {
    if Defines(e, name) {
      match IndexOf(e, '=')
      case Some(k) =>
        assert k <= |name|;
        assert StrNEqual(e, name, k);
      case None =>
    }
  }

  // ---------------------------------------------------------------------
  // process_env_command

  /** What process_env_command does with a line. */
  datatype EnvCommand =
    | SetVariable(name: string, value: string)  // setenv(name, value, 1), then prints the environment
    | UnsetVariable(name: string)               // unsetenv(name) succeeded
    | InvalidEnvironment(name: string)          // unsetenv(name) returned -1
    | InvalidFormat                             // a name or value token is missing
    | UnknownCommand                            // neither setenv nor unsetenv
    | ReadsPastEnd                              // a bare keyword: tokenizing starts past the terminator

  /** The text each outcome writes to standard error. */
  function Diagnostic(c: EnvCommand): string {
    match c
    case InvalidFormat => "Invalid command format\n"
    case InvalidEnvironment(_) => "Invalid environment\n"
    case UnknownCommand => "Unknown command\n"
    case _ => ""
  }

  /** libc unsetenv fails (EINVAL) for a name holding '='. */
  predicate UnsetenvFails(name: string) {
    '=' in name
  }

  /**
   * process_env_command: the first two space-separated tokens after
   * "setenv " are the name and value; the first after "unsetenv " is the
   * name. The libc setenv/unsetenv effects are not modelled.
   */
  method ProcessEnvCommand(command: string) returns (action: EnvCommand, errors: string)
    ensures errors == Diagnostic(action)
    ensures StartsWith(command, "setenv") ==>
      if |command| < 7 then action == ReadsPastEnd
      else
        var ts := Tokens(command[7..], " ");
        action == if |ts| < 2 then InvalidFormat else SetVariable(ts[0], ts[1])
    ensures !StartsWith(command, "setenv") && StartsWith(command, "unsetenv") ==>
      if |command| < 9 then action == ReadsPastEnd
      else
        var ts := Tokens(command[9..], " ");
        action == if |ts| == 0 then InvalidFormat
                  else if UnsetenvFails(ts[0]) then InvalidEnvironment(ts[0])
                  else UnsetVariable(ts[0])
    ensures !StartsWith(command, "setenv") && !StartsWith(command, "unsetenv") ==> action == UnknownCommand
  {
    if StartsWith(command, "setenv") {
      if |command| < 7 {
        return ReadsPastEnd, "";
      }
      var rest := command[7..];
      StrTokTokens(rest, 0, " ");
      var name, pos := StringTok(rest, 0, " ");
      if name.None? {
        return InvalidFormat, "Invalid command format\n";
      }
      StrTokTokens(rest, pos, " ");
      var value, _ := StringTok(rest, pos, " ");
      if value.None? {
        return InvalidFormat, "Invalid command format\n";
      }
      assert rest[0..] == rest;
      action, errors := SetVariable(name.value, value.value), "";
    } else if StartsWith(command, "unsetenv") {
      if |command| < 9 {
        return ReadsPastEnd, "";
      }
      var rest := command[9..];
      assert rest[0..] == rest;
      StrTokTokens(rest, 0, " ");
      var name, _ := StringTok(rest, 0, " ");
      if name.None? {
        return InvalidFormat, "Invalid command format\n";
      }
      if UnsetenvFails(name.value) {
        action, errors := InvalidEnvironment(name.value), "Invalid environment\n";
      } else {
        action, errors := UnsetVariable(name.value), "";
      }
    } else {
      action, errors := UnknownCommand, "Unknown command\n";
    }
  }
}
