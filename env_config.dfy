/** Environment-variable substitution in configuration scalars
    (`env_constructor` of the command-line entry point): every `${NAME}`
    found in the scalar is replaced by the value of NAME in the
    environment. */
module EnvConfig {
  import opened Wrappers
  import Strings

  /** `os.environ.get(NAME)` returned None, so `str.replace` fails. */
  datatype EnvError = MissingVariable(name: string)

  /** The position of the first '}' of `s`, when no newline comes before
      it: where the lazy group `(.*?)}` of the pattern closes (`.` does not
      match a newline). */
  function CloseBrace(s: string): (r: Option<nat>)
    ensures r.Some? ==> r.value < |s| && s[r.value] == '}'
    ensures r.Some? ==> forall i :: 0 <= i < r.value ==> s[i] != '}' && s[i] != '\n'
    ensures r.None? ==> forall i :: 0 <= i < |s| && s[i] == '}' ==> exists j :: 0 <= j < i && s[j] == '\n'
  {
    if |s| == 0 || s[0] == '\n' then None
    else if s[0] == '}' then Some(0)
    else
      var r := CloseBrace(s[1..]);
      if r.None? then None
      else
        assert forall i :: 1 <= i < |s| ==> s[i] == s[1..][i - 1];
        Some(r.value + 1)
  }

  /** `env_pattern.findall(value)` for the pattern `.*?\${(.*?)}.*?`: from
      left to right, each `${` whose group closes on the same line yields
      the text up to the first '}', and the search resumes after it; a `${`
      that does not close is skipped. */
  function Placeholders(s: string): (names: seq<string>)
    decreases |s|
  {
    if |s| < 2 then []
    else if s[0] == '$' && s[1] == '{' then
      match CloseBrace(s[2..])
      case Some(k) => [s[2..2 + k]] + Placeholders(s[2 + k + 1..])
      case None => Placeholders(s[1..])
    else Placeholders(s[1..])
  }

  /** The placeholder `${name}` as `replace` looks for it. */
  function Placeholder(name: string): (p: string)
    ensures |p| == |name| + 3 && p[0] == '$'
  {
    "${" + name + "}"
  }

  /** The loop of `env_constructor`: for each name in turn, replace every
      occurrence of its placeholder in the current value by its environment
      value; the first name missing from the environment is an error. */
  function Substitute(value: string, env: map<string, string>, names: seq<string>): Result<string, EnvError>
    decreases |names|
  {
    if |names| == 0 then Ok(value)
    else if names[0] !in env then Err(MissingVariable(names[0]))
    else Substitute(Strings.ReplaceAll(value, Placeholder(names[0]), env[names[0]]), env, names[1..])
  }

  /** `env_constructor(loader, node)` on the scalar `value`. */
  method EnvConstructor(value: string, env: map<string, string>) returns (r: Result<string, EnvError>)
    ensures r == Substitute(value, env, Placeholders(value))
  {
    var names := Placeholders(value);
    var v := value;
    for i := 0 to |names|
      invariant Substitute(v, env, names[i..]) == Substitute(value, env, names)
    {
      assert names[i..][1..] == names[i + 1..];
      if names[i] !in env {
        return Err(MissingVariable(names[i]));
      }
      v := Strings.ReplaceAll(v, Placeholder(names[i]), env[names[i]]);
    }
    assert names[|names|..] == [];
    r := Ok(v);
  }

  /** `s` holds a placeholder: a `${` whose group closes on its line. */
  predicate HasPlaceholder(s: string)
  {
    exists i :: 0 <= i < |s| - 1 && s[i] == '$' && s[i + 1] == '{' && CloseBrace(s[i + 2..]).Some?
  }

  /** `findall` finds no name exactly when the scalar holds no `${...}`
      that closes on its line; "$5", "a$b", an open "${X" and "${X\n}"
      yield none. */
  lemma {:induction false} NoNamesIffNoPlaceholder(s: string)
    ensures Placeholders(s) == [] <==> !HasPlaceholder(s)
    decreases |s|
  {
    if |s| >= 2 {
      NoNamesIffNoPlaceholder(s[1..]);
      if s[0] == '$' && s[1] == '{' && CloseBrace(s[2..]).Some? {
        assert HasPlaceholder(s) by {
          assert 0 < |s| - 1 && s[0] == '$' && s[1] == '{' && CloseBrace(s[0 + 2..]).Some?;
        }
      } else {
        assert Placeholders(s) == Placeholders(s[1..]);
        if HasPlaceholder(s) {
          var i :| 0 <= i < |s| - 1 && s[i] == '$' && s[i + 1] == '{' && CloseBrace(s[i + 2..]).Some?;
          assert i > 0;
          assert s[1..][i - 1] == s[i] && s[1..][i] == s[i + 1] && s[1..][i - 1 + 2..] == s[i + 2..];
          assert HasPlaceholder(s[1..]);
        }
        if HasPlaceholder(s[1..]) {
          var i :| 0 <= i < |s[1..]| - 1 && s[1..][i] == '$' && s[1..][i + 1] == '{' && CloseBrace(s[1..][i + 2..]).Some?;
          assert s[1..][i + 2..] == s[i + 1 + 2..];
          assert s[i + 1] == '$' && s[i + 2] == '{' && CloseBrace(s[(i + 1) + 2..]).Some?;
        }
      }
    } else {
      assert !HasPlaceholder(s);
    }
  }

  /** A scalar without a `$` holds no placeholder. */
  lemma NoDollarNoPlaceholders(s: string)
    requires '$' !in s
    ensures Placeholders(s) == []
  {
    NoNamesIffNoPlaceholder(s);
  }

  /** A scalar without a `${...}` that closes on its line is returned
      unchanged. */
  lemma NoPlaceholderUnchanged(s: string, env: map<string, string>)
    requires !HasPlaceholder(s)
    ensures Substitute(s, env, Placeholders(s)) == Ok(s)
  {
    NoNamesIffNoPlaceholder(s);
  }

  /** Text without a `$` before the first placeholder adds no name. */
  lemma {:induction false} PlaceholdersSkip(p: string, rest: string)
    requires '$' !in p
    ensures Placeholders(p + rest) == Placeholders(rest)
    decreases |p|
  {
    if p != [] {
      var s := p + rest;
      if |s| < 2 {
        assert |rest| < 2;
      } else {
        assert s[0] == p[0] && s[0] != '$';
        assert s[1..] == p[1..] + rest;
        PlaceholdersSkip(p[1..], rest);
      }
    } else {
      assert p + rest == rest;
    }
  }

  /** Names come out in order: for `p${name}q` with no `$` in `p` and a
      name without '}' or newline, the first name found is `name`, and the
      others are those of `q`. */
  lemma PlaceholdersInOrder(p: string, name: string, q: string)
    requires '$' !in p && '}' !in name && '\n' !in name
    ensures Placeholders(p + Placeholder(name) + q) == [name] + Placeholders(q)
  {
    var rest := Placeholder(name) + q;
    assert p + Placeholder(name) + q == p + rest;
    PlaceholdersSkip(p, rest);
    var tail := rest[2..];
    assert tail == name + "}" + q;
    CloseBraceAfter(name, q);
    assert rest[0] == '$' && rest[1] == '{';
    assert rest[2..2 + |name|] == name;
    assert rest[2 + |name| + 1..] == q;
    assert Placeholders(rest) == [name] + Placeholders(q);
  }

  /** The group of `${name}rest` closes right after `name`. */
  lemma {:induction false} CloseBraceAfter(name: string, q: string)
    requires '}' !in name && '\n' !in name
    ensures CloseBrace(name + "}" + q) == Some(|name|)
    decreases |name|
  {
    if name != [] {
      assert (name + "}" + q)[1..] == name[1..] + "}" + q;
      CloseBraceAfter(name[1..], q);
    }
  }

  /** Substitution fails exactly when some name is missing from the
      environment, and it names the first one missing. */
  lemma {:induction false} SubstituteFailsIffMissing(value: string, env: map<string, string>, names: seq<string>)
    ensures Substitute(value, env, names).Err? <==> exists i :: 0 <= i < |names| && names[i] !in env
    ensures Substitute(value, env, names).Err? ==>
      exists i :: 0 <= i < |names| && names[i] !in env
        && Substitute(value, env, names).error == MissingVariable(names[i])
        && forall j :: 0 <= j < i ==> names[j] in env
    decreases |names|
  {
    if |names| > 0 && names[0] in env {
      var v := Strings.ReplaceAll(value, Placeholder(names[0]), env[names[0]]);
      SubstituteFailsIffMissing(v, env, names[1..]);
      if Substitute(value, env, names).Err? {
        var i :| 0 <= i < |names[1..]| && names[1..][i] !in env
          && Substitute(v, env, names[1..]).error == MissingVariable(names[1..][i])
          && forall j :: 0 <= j < i ==> names[1..][j] in env;
        assert names[i + 1] !in env;
        assert forall j :: 0 <= j < i + 1 ==> names[j] in env by {
          forall j | 0 <= j < i + 1
            ensures names[j] in env
          {
            if j > 0 {
              assert names[j] == names[1..][j - 1];
            }
          }
        }
      } else {
        forall i | 0 <= i < |names|
          ensures names[i] in env
        {
          if i > 0 {
            assert names[i] == names[1..][i - 1];
          }
        }
      }
    }
  }

  /** Every occurrence of a placeholder is replaced: substituting one name
      gives the value's pieces around `${name}` joined by the environment
      value. */
  lemma SubstituteReplacesEveryOccurrence(value: string, env: map<string, string>, name: string)
    requires name in env
    ensures Substitute(value, env, [name])
         == Ok(Strings.Join(Strings.Split(value, Placeholder(name)), env[name]))
  {
    Strings.ReplaceAllIsJoinOfSplit(value, Placeholder(name), env[name]);
  }

  /** `p${name}q` with no other `$` becomes `p`, the value of `name`, then `q`. */
  lemma SinglePlaceholder(p: string, name: string, q: string, env: map<string, string>)
    requires '$' !in p && '$' !in q && '}' !in name && '\n' !in name
    requires name in env
    ensures Substitute(p + Placeholder(name) + q, env, Placeholders(p + Placeholder(name) + q))
         == Ok(p + env[name] + q)
  {
    var pat := Placeholder(name);
    var s := p + pat + q;
    PlaceholdersInOrder(p, name, q);
    NoDollarNoPlaceholders(q);
    assert Placeholders(s) == [name];
    assert s == p + (pat + q);
    Strings.ReplaceAllSkipsPrefix(p, pat + q, pat, env[name]);
    assert (pat + q)[..|pat|] == pat;
    assert (pat + q)[|pat|..] == q;
    NoDollarNotContained(q, pat);
    Strings.ReplaceAllAbsent(q, pat, env[name]);
    assert Strings.ReplaceAll(pat + q, pat, env[name]) == env[name] + q;
    assert Strings.ReplaceAll(s, pat, env[name]) == p + (env[name] + q);
    assert [name][1..] == [];
    assert Substitute(s, env, [name]) == Substitute(p + (env[name] + q), env, []);
    assert p + (env[name] + q) == p + env[name] + q;
  }

  /** A pattern starting with `$` does not occur in text without `$`. */
  lemma {:induction false} NoDollarNotContained(s: string, pat: string)
    requires '$' !in s && |pat| > 0 && pat[0] == '$'
    ensures !Strings.Contains(s, pat)
    decreases |s|
  {
    if |pat| <= |s| {
      assert s[..|pat|][0] == s[0];
      assert '$' !in s[1..];
      NoDollarNotContained(s[1..], pat);
    }
  }

  /** The example of a value `a${X}b` with `X` set to `v`. */
  lemma Example(env: map<string, string>)
    requires "X" in env
    ensures Substitute("a${X}b", env, Placeholders("a${X}b")) == Ok("a" + env["X"] + "b")
  {
    assert "a${X}b" == "a" + Placeholder("X") + "b";
    SinglePlaceholder("a", "X", "b", env);
  }
}
