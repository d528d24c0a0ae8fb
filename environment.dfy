/**
 * The environment store of environment.c. The process-wide `environ`
 * array is the field `vars` of an Environ object (its NULL terminator is
 * the end of the sequence); the functions that update it in place become
 * methods that modify that object. What a call writes to standard output
 * is returned as `written`.
 */
module Environment {
  import opened Wrappers
  import opened CLib

  /**
   * The test set_environment and get_environment apply to an entry:
   * strncmp(entry, name, strlen(name)) == 0 && entry[strlen(name)] == '='.
   */
  predicate Defines(entry: string, name: string) {
    StrNEqual(entry, name, |name|) && CharAt(entry, |name|) == '='
  }

  /** An entry defines `name` exactly when it starts with `name` and '='. */
  lemma {:induction false} DefinesIsPrefix(entry: string, name: string)
    ensures Defines(entry, name) <==> StartsWith(entry, name + "=")
  {
    if Defines(entry, name) {
      assert |name| < |entry|;
      forall i | 0 <= i < |name| ensures entry[i] == name[i] {
        assert CharAt(entry, i) == CharAt(name, i);
      }
      assert entry[..|name| + 1] == name + "=";
    }
    if StartsWith(entry, name + "=") {
      forall i | 0 <= i < |name| ensures CharAt(entry, i) == CharAt(name, i) {
        assert entry[..|name| + 1][i] == (name + "=")[i];
      }
      assert entry[..|name| + 1][|name|] == '=';
    }
  }

  /** The entry sprintf("%s=%s", name, value) builds. */
  function Entry(name: string, value: string): string {
    name + "=" + value
  }

  /** The index of the first entry, in array order, that defines `name`. */
  function FindIndex(vars: seq<string>, name: string): (r: Option<nat>)
    ensures r.Some? ==> r.value < |vars| && Defines(vars[r.value], name)
    ensures r.Some? ==> forall j :: 0 <= j < r.value ==> !Defines(vars[j], name)
    ensures r.None? ==> forall j :: 0 <= j < |vars| ==> !Defines(vars[j], name)
  {
    if vars == [] then None
    else if Defines(vars[0], name) then Some(0)
    else match FindIndex(vars[1..], name)
      case None => None
      case Some(i) => Some(i + 1)
  }

  /**
   * The environment after a successful set_environment: overwrite the first
   * entry defining `name` when asked to, keep it when not, and append
   * "name=value" when no entry defines `name`.
   */
  function Assigned(vars: seq<string>, name: string, value: string, overwrite: bool): seq<string> {
    match FindIndex(vars, name)
    case Some(i) => if overwrite then vars[i := Entry(name, value)] else vars
    case None => vars + [Entry(name, value)]
  }

  /** Overwriting replaces the one entry in place: length and all others kept. */
  lemma AssignedOverwrites(vars: seq<string>, name: string, value: string, i: nat)
    requires FindIndex(vars, name) == Some(i)
    ensures |Assigned(vars, name, value, true)| == |vars|
    ensures Assigned(vars, name, value, true)[i] == name + "=" + value
    ensures forall j :: 0 <= j < |vars| && j != i ==> Assigned(vars, name, value, true)[j] == vars[j]
    ensures Assigned(vars, name, value, false) == vars
  {
  }

  /** An absent name is appended at the end, whether or not overwrite was asked. */
  lemma {:induction false} AssignedAppends(vars: seq<string>, name: string, value: string, overwrite: bool)
    requires forall j :: 0 <= j < |vars| ==> !StartsWith(vars[j], name + "=")
    ensures Assigned(vars, name, value, overwrite) == vars + [name + "=" + value]
  {
    if FindIndex(vars, name).Some? {
      DefinesIsPrefix(vars[FindIndex(vars, name).value], name);
    }
  }

  /** "PATHX=..." never matches "PATH": only a '=' right after the name does. */
  lemma {:induction false} LongerNameNeverMatches(name: string, c: char, rest: string)
    requires c != '='
    ensures !Defines(name + [c] + rest, name)
  {
    assert CharAt(name + [c] + rest, |name|) == c;
  }

  // ---------------------------------------------------------------------
  // remove_environment

  /**
   * remove_environment keeps an entry when it has a '=' and its name (the
   * text before the first '=') is not equal to the first namelength
   * characters of the argument, compared with strncmp.
   */
  predicate Kept(entry: string, name: string) {
    match IndexOf(entry, '=')
    case None => false
    case Some(k) => !StrNEqual(entry, name, k)
  }

  /** The surviving entries, in their original order. */
  function Removed(vars: seq<string>, name: string): seq<string> {
    if vars == [] then []
    else
      var last := vars[|vars| - 1];
      Removed(vars[..|vars| - 1], name) + (if Kept(last, name) then [last] else [])
  }

  /** Removal acts entry by entry: it filters, so the order is preserved. */
  lemma {:induction false} RemovedAppend(a: seq<string>, b: seq<string>, name: string)
    ensures Removed(a + b, name) == Removed(a, name) + Removed(b, name)
    decreases |b|
  {
    if b == [] {
      assert a + b == a;
    } else {
      assert (a + b)[..|a + b| - 1] == a + b[..|b| - 1];
      RemovedAppend(a, b[..|b| - 1], name);
    }
  }

  /** An entry survives exactly when it is in the array and passes the test. */
  lemma {:induction false} RemovedMembers(vars: seq<string>, name: string, e: string)
    ensures e in Removed(vars, name) <==> e in vars && Kept(e, name)
    decreases |vars|
  {
    if vars != [] {
      var init := vars[..|vars| - 1];
      RemovedMembers(init, name, e);
      assert vars == init + [vars[|vars| - 1]];
    }
  }

  /**
   * The prefix quirk: an entry is dropped exactly when its name is a prefix
   * of the argument (for "PA=1", removing "PATH" drops it too).
   */
  lemma {:induction false} DroppedIffNameIsPrefix(entry: string, name: string, k: nat)
    requires IndexOf(entry, '=') == Some(k)
    requires forall i :: 0 <= i < k ==> entry[i] != '\0'
    ensures !Kept(entry, name) <==> k <= |name| && entry[..k] == name[..k]
  {
    StrNEqualPrefix(entry, name, k);
  }

  /** An entry without '=' never survives. */
  lemma EntriesWithoutEqualsDropped(entry: string, name: string)
    requires forall i :: 0 <= i < |entry| ==> entry[i] != '='
    ensures !Kept(entry, name)
  {
  }

  // ---------------------------------------------------------------------
  // print_environment and the text execute_env writes

  /** Every entry followed by "\n", in array order. */
  function EnvText(vars: seq<string>): (text: string)
    ensures text == [] || text[|text| - 1] == '\n'
  {
    if vars == [] then []
    else EnvText(vars[..|vars| - 1]) + vars[|vars| - 1] + "\n"
  }

  /** The total_length print_environment computes: the sum of len + 1. */
  function TotalLength(vars: seq<string>): nat {
    if vars == [] then 0 else TotalLength(vars[..|vars| - 1]) + |vars[|vars| - 1]| + 1
  }

  lemma {:induction false} EnvTextLength(vars: seq<string>)
    ensures |EnvText(vars)| == TotalLength(vars)
    decreases |vars|
  {
    if vars != [] {
      EnvTextLength(vars[..|vars| - 1]);
    }
  }

  /** The text for the first i entries is a prefix of the whole text. */
  lemma {:induction false} EnvTextPrefix(vars: seq<string>, i: nat)
    requires i <= |vars|
    ensures StartsWith(EnvText(vars), EnvText(vars[..i]))
    decreases |vars| - i
  {
    if i < |vars| {
      EnvTextPrefix(vars, i + 1);
      assert vars[..i + 1][..i] == vars[..i];
    } else {
      assert vars[..i] == vars;
    }
  }

  lemma {:induction false} EnvTextStep(vars: seq<string>, i: nat)
    requires i < |vars|
    ensures EnvText(vars[..i + 1]) == EnvText(vars[..i]) + vars[i] + "\n"
    ensures StartsWith(EnvText(vars), EnvText(vars[..i + 1]))
    ensures |EnvText(vars)| == TotalLength(vars)
  {
    assert vars[..i + 1][..i] == vars[..i];
    EnvTextPrefix(vars, i + 1);
    EnvTextLength(vars);
  }

  /** Splitting the text on newlines gives back the entries, in order. */
  lemma {:induction false} EnvTextLines(vars: seq<string>)
    requires forall i :: 0 <= i < |vars| ==> IsToken(vars[i], "\n")
    ensures Tokens(EnvText(vars), "\n") == vars
    decreases |vars|
  {
    if vars != [] {
      var init, last := vars[..|vars| - 1], vars[|vars| - 1];
      assert forall i :: 0 <= i < |init| ==> init[i] == vars[i];
      EnvTextLines(init);
      LineAfterText(EnvText(init), last);
      assert vars == init + [last];
    }
  }

  /** One more newline-terminated line adds one token. */
  lemma {:induction false} LineAfterText(a: string, line: string)
    requires a == [] || a[|a| - 1] == '\n'
    requires IsToken(line, "\n")
    ensures Tokens(a + line + "\n", "\n") == Tokens(a, "\n") + [line]
  {
    assert a + line + "\n" == a + (line + "\n");
    TokensAppend(a, line + "\n", "\n");
    assert line + "\n" == line + ['\n'] + [];
    TokenThenRest(line, '\n', [], "\n");
  }

  class Environ {
    /** The entries of `environ`, in array order. */
    var vars: seq<string>

    constructor (initial: seq<string>)
      ensures vars == initial
    {
      vars := initial;
    }

    /**
     * create_environment: a fresh NULL-terminated copy of the array, for a
     * child process (None is the terminator).
     */
    method CreateEnvironment() returns (envp: array<Option<string>>)
      ensures fresh(envp)
      ensures envp.Length == |vars| + 1
      ensures forall i :: 0 <= i < |vars| ==> envp[i] == Some(vars[i])
      ensures envp[|vars|] == None
    {
      var count := |vars|;
      envp := new Option<string>[count + 1](_ => None);
      for i := 0 to count
        invariant forall j :: 0 <= j < i ==> envp[j] == Some(vars[j])
        invariant envp[count] == None
      {
        envp[i] := Some(vars[i]);
      }
      envp[count] := None;
    }

    /**
     * set_environment. `outOfMemory` stands for malloc returning NULL; the
     * text of perror is not modelled.
     */
    method SetEnvironment(name: string, value: string, overwrite: int, mode: int, outOfMemory: bool)
      returns (r: int, written: string)
      modifies this
      ensures var kept := FindIndex(old(vars), name).Some? && overwrite == 0;
        && (r == -1 <==> outOfMemory && !kept)
        && (r == 0 <==> !(outOfMemory && !kept))
        && (r == -1 ==> vars == old(vars) && written == [])
        && (r == 0 ==> vars == Assigned(old(vars), name, value, overwrite != 0))
        && written == (if r == 0 && mode != 0 && !kept then EnvText(vars) else [])
    {
      var i := 0;
      while i < |vars|
        invariant 0 <= i <= |vars|
        invariant forall j :: 0 <= j < i ==> !Defines(vars[j], name)
      {
        if StrNEqual(vars[i], name, |name|) && CharAt(vars[i], |name|) == '=' {
          assert FindIndex(vars, name) == Some(i);
          if overwrite != 0 {
            if outOfMemory {
              return -1, [];
            }
            var newVar := name + "=" + value;
            vars := vars[i := newVar];
            written := [];
            if mode != 0 {
              var _, w := PrintEnvironment("print");
              written := w;
            }
            return 0, written;
          } else {
            return 0, [];
          }
        }
        i := i + 1;
      }
      assert FindIndex(vars, name) == None;
      if outOfMemory {
        return -1, [];
      }
      var newVar := name + "=" + value;
      var newEnviron: seq<string> := [];
      for j := 0 to |vars|
        invariant newEnviron == vars[..j]
      {
        newEnviron := newEnviron + [vars[j]];
      }
      assert vars[..|vars|] == vars;
      vars := newEnviron + [newVar];
      written := [];
      if mode != 0 {
        var _, w := PrintEnvironment("print");
        written := w;
      }
      r := 0;
    }

    /**
     * remove_environment. When no entry survives the source stores through
     * a NULL pointer; the model reports that as `faulted` and leaves the
     * array as it was.
     */
    method RemoveEnvironment(name: string) returns (faulted: bool)
      modifies this
      ensures faulted <==> Removed(old(vars), name) == []
      ensures vars == if faulted then old(vars) else Removed(old(vars), name)
    {
      var newEnv: seq<string> := [];
      for i := 0 to |vars|
        invariant newEnv == Removed(vars[..i], name)
      {
        assert vars[..i + 1][..i] == vars[..i];
        var delimiter := IndexOf(vars[i], '=');
        if delimiter.Some? {
          var namelength := delimiter.value;
          if !StrNEqual(vars[i], name, namelength) {
            newEnv := newEnv + [vars[i]];
          }
        }
      }
      assert vars[..|vars|] == vars;
      if newEnv == [] {
        return true;
      }
      vars := newEnv;
      faulted := false;
    }

    /**
     * The string-building half of print_environment: a buffer of
     * total_length + 1 characters filled entry by entry through an
     * advancing position, each entry followed by a newline.
     */
    method BuildEnvText() returns (text: string)
      ensures text == EnvText(vars)
    {
      var env := vars;
      var total := 0;
      for i := 0 to |env|
        invariant total == TotalLength(env[..i])
      {
        assert env[..i + 1][..i] == env[..i];
        total := total + |env[i]| + 1;
      }
      assert env[..|env|] == env;
      EnvTextLength(env);
      var buffer := new char[total + 1];
      var position: nat := 0;
      for i := 0 to |env|
        invariant position <= total
        invariant buffer[..position] == EnvText(env[..i])
      {
        var entry := env[i];
        EnvTextStep(env, i);
        position := AppendLine(buffer, position, entry);
      }
      assert env[..|env|] == env;
      buffer[position] := '\0';
      text := buffer[..position];
    }

    /**
     * print_environment: returns the text ("none", "return"), writes it
     * ("print", "write"), or writes a diagnostic for any other mode.
     */
    method PrintEnvironment(mode: string) returns (result: Option<string>, written: string)
      ensures mode == "print" || mode == "write" ==> result == None && written == EnvText(vars)
      ensures mode == "none" || mode == "return" ==> result == Some(EnvText(vars)) && written == []
      ensures mode !in {"print", "write", "none", "return"} ==>
                result == None && written == "Invalid mode: " + mode + "\n"
    {
      var text := BuildEnvText();
      if mode == "print" || mode == "write" {
        result, written := None, text;
      } else if mode == "none" || mode == "return" {
        result, written := Some(text), [];
      } else {
        result, written := None, "Invalid mode: " + mode + "\n";
      }
    }
  }

  /**
   * strcpy(buffer + at, s) followed by strcat(buffer + at, "\n"): the text
   * before `at` is kept and `next` is the advanced position.
   */
  method AppendLine(buffer: array<char>, at: nat, s: string) returns (next: nat)
    requires at + |s| < buffer.Length
    modifies buffer
    ensures next == at + |s| + 1
    ensures buffer[..next] == old(buffer[..at]) + s + "\n"
  {
    CopyAt(buffer, at, s);
    buffer[at + |s|] := '\n';
    assert buffer[..at + |s| + 1] == buffer[..at] + buffer[at..at + |s|] + ['\n'];
    next := at + |s| + 1;
  }

  /** strcpy(buffer + at, s), leaving the characters before `at` alone. */
  method CopyAt(buffer: array<char>, at: nat, s: string)
    requires at + |s| < buffer.Length
    modifies buffer
    ensures buffer[..at] == old(buffer[..at])
    ensures buffer[at..at + |s|] == s
  {
    for k := 0 to |s|
      invariant buffer[..at] == old(buffer[..at])
      invariant buffer[at..at + k] == s[..k]
    {
      buffer[at + k] := s[k];
      assert buffer[at..at + k + 1] == buffer[at..at + k] + [s[k]];
      assert s[..k + 1] == s[..k] + [s[k]];
    }
    assert s[..|s|] == s;
  }
}
