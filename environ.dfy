/** Reading credentials from the process environment: `os.getenv(A) or os.getenv(B) or ...`. */
module Environ {
  import opened Wrappers

  /** `os.getenv(name)` */
  function GetEnv(env: map<string, string>, name: string): (r: Option<string>)
    ensures r.Some? <==> name in env
    ensures r.Some? ==> r.value == env[name]
  {
    if name in env then Some(env[name]) else None
  }

  /** Python truthiness of an optional string: set and not empty. */
  predicate Usable(v: Option<string>) {
    v.Some? && v.value != ""
  }

  /** `os.getenv(n0) or os.getenv(n1) or ...`: the first operand that is truthy, or the
      last operand when none is (which may then be `""` or `None`). */
  function FirstSet(env: map<string, string>, names: seq<string>): Option<string>
    requires names != []
  {
    if |names| == 1 || Usable(GetEnv(env, names[0])) then GetEnv(env, names[0])
    else FirstSet(env, names[1..])
  }

  /** `names[i]` holds a usable value and no variable before it does. */
  predicate FirstUsable(env: map<string, string>, names: seq<string>, i: int)
    requires 0 <= i < |names|
  {
    Usable(GetEnv(env, names[i])) && forall k :: 0 <= k < i ==> !Usable(GetEnv(env, names[k]))
  }

  /** The chain yields a usable value exactly when some variable holds one, and then it
      is the value of the first such variable in the order given. */
  lemma {:induction false} FirstSetPrecedence(env: map<string, string>, names: seq<string>)
    requires names != []
    ensures Usable(FirstSet(env, names)) <==> exists i :: 0 <= i < |names| && Usable(GetEnv(env, names[i]))
    ensures forall i :: 0 <= i < |names| && FirstUsable(env, names, i) ==> FirstSet(env, names) == GetEnv(env, names[i])
    ensures (forall i :: 0 <= i < |names| ==> !Usable(GetEnv(env, names[i])))
      ==> FirstSet(env, names) == GetEnv(env, names[|names| - 1])
  {
    if |names| > 1 && !Usable(GetEnv(env, names[0])) {
      FirstSetPrecedence(env, names[1..]);
      if exists i :: 0 <= i < |names| && Usable(GetEnv(env, names[i])) {
        var i :| 0 <= i < |names| && Usable(GetEnv(env, names[i]));
        assert names[1..][i - 1] == names[i];
      }
      forall i | 0 <= i < |names| && FirstUsable(env, names, i)
        ensures FirstSet(env, names) == GetEnv(env, names[i])
      {
        assert names[1..][i - 1] == names[i];
        forall k | 0 <= k < i - 1 ensures !Usable(GetEnv(env, names[1..][k])) {
          assert names[1..][k] == names[k + 1];
        }
        assert FirstUsable(env, names[1..], i - 1);
      }
    }
  }
}
