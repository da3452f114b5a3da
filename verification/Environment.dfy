/** Merging extra `KEY=VALUE` entries into the environment handed to adbd. */
module Environment {
  import opened Text

  /** The part before the first `=`, or everything. */
  function Key(entry: string): string {
    entry[..IndexOf(entry, '=')]
  }

  /** An entry that defines a variable. */
  predicate Defines(entry: string, key: string) {
    '=' in entry && Key(entry) == key
  }

  /** `strings.HasPrefix(kv, key)` with the `=` appended to the extra's key. */
  predicate Matches(kv: string, extra: string) {
    HasPrefix(kv, Key(extra) + "=")
  }

  lemma {:induction false} MatchesIff(kv: string, extra: string)
    ensures Matches(kv, extra) <==> Defines(kv, Key(extra))
  {
    var key := Key(extra);
    assert '=' !in key;
    if Matches(kv, extra) {
      assert kv == key + ['='] + kv[|key| + 1..];
      IndexOfSplit(key, '=', kv[|key| + 1..]);
    }
    if Defines(kv, key) {
      assert kv[..|key| + 1] == key + "=";
    }
  }

  /** The loop over the entries: every match is overwritten in its place. */
  function Replaced(env: seq<string>, extra: string): seq<string> {
    seq(|env|, i requires 0 <= i < |env| => if Matches(env[i], extra) then extra else env[i])
  }

  function MergeOne(env: seq<string>, extra: string): seq<string> {
    if extra == "" then env
    else if exists i :: 0 <= i < |env| && Matches(env[i], extra) then Replaced(env, extra)
    else env + [extra]
  }

  function Merge(env: seq<string>, extras: seq<string>): seq<string> {
    if extras == [] then env else MergeOne(Merge(env, extras[..|extras| - 1]), extras[|extras| - 1])
  }

  /** `merge_envs`. */
  method MergeEnvs(inherited: seq<string>, extras: seq<string>) returns (env: seq<string>)
    ensures env == Merge(inherited, extras)
  {
    env := inherited;
    for n := 0 to |extras|
      invariant env == Merge(inherited, extras[..n])
    {
      var extra := extras[n];
      assert extras[..n + 1][..n] == extras[..n];
      if extra == "" { continue; }
      var replaced := false;
      ghost var before := env;
      for i := 0 to |env|
        invariant |env| == |before|
        invariant forall j :: 0 <= j < |env| ==>
            env[j] == if j < i && Matches(before[j], extra) then extra else before[j]
        invariant replaced <==> exists j :: 0 <= j < i && Matches(before[j], extra)
      {
        if HasPrefix(env[i], Key(extra) + "=") {
          env := env[i := extra];
          replaced := true;
        }
      }
      if replaced {
        assert env == Replaced(before, extra);
      } else {
        assert env == before;
        env := env + [extra];
      }
    }
    assert extras[..|extras|] == extras;
  }

  // ----- reference: override by key -----

  /** The last extra that defines a key. */
  function LastExtra(extras: seq<string>, key: string): Option<string> {
    if extras == [] then None
    else if Defines(extras[|extras| - 1], key) then Some(extras[|extras| - 1])
    else LastExtra(extras[..|extras| - 1], key)
  }

  /** The first entry that defines a key: the one that the program started with it sees. */
  function Lookup(env: seq<string>, key: string): Option<string> {
    if env == [] then None
    else if Defines(env[0], key) then Some(env[0])
    else Lookup(env[1..], key)
  }

  /** An inherited entry after all extras. */
  function Override(extras: seq<string>, entry: string): string {
    if '=' in entry && LastExtra(extras, Key(entry)).Some? then LastExtra(extras, Key(entry)).value else entry
  }

  predicate WellFormed(extras: seq<string>) {
    forall i :: 0 <= i < |extras| ==> extras[i] == "" || '=' in extras[i]
  }

  predicate KeyIn(env: seq<string>, key: string) {
    exists i :: 0 <= i < |env| && Defines(env[i], key)
  }

  /** The keys that the extras bring in, in the order in which they first appear. */
  function FreshKeys(env: seq<string>, extras: seq<string>): seq<string> {
    if extras == [] then []
    else
      var init, extra := FreshKeys(env, extras[..|extras| - 1]), extras[|extras| - 1];
      if extra == "" || KeyIn(env, Key(extra)) || Key(extra) in init then init else init + [Key(extra)]
  }

  /** The entries in front are the inherited ones, overridden in place; then comes one entry for each new key. */
  predicate IsOverride(env: seq<string>, extras: seq<string>, r: seq<string>) {
    var added := FreshKeys(env, extras);
    && |r| == |env| + |added|
    && (forall i :: 0 <= i < |env| ==> r[i] == Override(extras, env[i]))
    && (forall i :: 0 <= i < |added| ==> LastExtra(extras, added[i]) == Some(r[|env| + i]))
  }

  lemma {:induction false} LastExtraDefines(extras: seq<string>, key: string)
    ensures LastExtra(extras, key).Some? ==> Defines(LastExtra(extras, key).value, key)
  {
    if extras != [] {
      LastExtraDefines(extras[..|extras| - 1], key);
    }
  }

  lemma {:induction false} OverrideKeepsKey(extras: seq<string>, entry: string, key: string)
    ensures Defines(Override(extras, entry), key) <==> Defines(entry, key)
  {
    LastExtraDefines(extras, Key(entry));
  }

  /** Which positions of a merged environment define a key. */
  lemma {:induction false} DefinersOf(env: seq<string>, extras: seq<string>, r: seq<string>, key: string, i: nat)
    requires IsOverride(env, extras, r) && i < |r|
    ensures Defines(r[i], key) <==> if i < |env| then Defines(env[i], key) else FreshKeys(env, extras)[i - |env|] == key
  {
    if i < |env| {
      OverrideKeepsKey(extras, env[i], key);
    } else {
      var added := FreshKeys(env, extras);
      LastExtraDefines(extras, added[i - |env|]);
    }
  }

  lemma {:induction false} LastExtraSnoc(init: seq<string>, extra: string, key: string)
    ensures LastExtra(init + [extra], key) == if Defines(extra, key) then Some(extra) else LastExtra(init, key)
  {
    assert (init + [extra])[..|init|] == init;
  }

  lemma {:induction false} OverrideSnoc(init: seq<string>, extra: string, entry: string)
    requires '=' in extra
    ensures Override(init + [extra], entry) == if Defines(entry, Key(extra)) then extra else Override(init, entry)
  {
    LastExtraSnoc(init, extra, Key(entry));
  }

  /** Where a matching entry exists, it is overwritten in place. */
  lemma {:induction false} ReplaceOverrides(env: seq<string>, init: seq<string>, extra: string, r: seq<string>)
    requires IsOverride(env, init, r) && '=' in extra
    requires KeyIn(env, Key(extra)) || Key(extra) in FreshKeys(env, init)
    ensures IsOverride(env, init + [extra], Replaced(r, extra))
  {
    var extras, added, key := init + [extra], FreshKeys(env, init), Key(extra);
    assert extras[..|init|] == init;
    assert FreshKeys(env, extras) == added;
    forall i | 0 <= i < |env| ensures Replaced(r, extra)[i] == Override(extras, env[i]) {
      MatchesIff(r[i], extra);
      DefinersOf(env, init, r, key, i);
      OverrideSnoc(init, extra, env[i]);
    }
    forall i | 0 <= i < |added| ensures LastExtra(extras, added[i]) == Some(Replaced(r, extra)[|env| + i]) {
      MatchesIff(r[|env| + i], extra);
      DefinersOf(env, init, r, key, |env| + i);
      LastExtraSnoc(init, extra, added[i]);
    }
  }

  /** A key seen for the first time is appended. */
  lemma {:induction false} AppendOverrides(env: seq<string>, init: seq<string>, extra: string, r: seq<string>)
    requires IsOverride(env, init, r) && '=' in extra
    requires !KeyIn(env, Key(extra)) && Key(extra) !in FreshKeys(env, init)
    ensures IsOverride(env, init + [extra], r + [extra])
  {
    var extras, added := init + [extra], FreshKeys(env, init);
    assert extras[..|init|] == init;
    assert FreshKeys(env, extras) == added + [Key(extra)];
    forall i | 0 <= i < |env| ensures (r + [extra])[i] == Override(extras, env[i]) {
      OverrideSnoc(init, extra, env[i]);
    }
    forall i | 0 <= i <= |added|
      ensures LastExtra(extras, (added + [Key(extra)])[i]) == Some((r + [extra])[|env| + i])
    {
      LastExtraSnoc(init, extra, (added + [Key(extra)])[i]);
    }
  }

  lemma {:induction false} MatchExistsIff(env: seq<string>, init: seq<string>, extra: string, r: seq<string>)
    requires IsOverride(env, init, r)
    ensures (exists i :: 0 <= i < |r| && Matches(r[i], extra)) <==>
            KeyIn(env, Key(extra)) || Key(extra) in FreshKeys(env, init)
  {
    var added, key := FreshKeys(env, init), Key(extra);
    forall i: nat | i < |r|
      ensures Matches(r[i], extra) <==> if i < |env| then Defines(env[i], key) else added[i - |env|] == key
    {
      MatchesIff(r[i], extra);
      DefinersOf(env, init, r, key, i);
    }
    if KeyIn(env, key) {
      var i :| 0 <= i < |env| && Defines(env[i], key);
      assert Matches(r[i], extra);
    } else if key in added {
      var i :| 0 <= i < |added| && added[i] == key;
      assert Matches(r[|env| + i], extra);
    }
  }

  lemma {:induction false} MergeOneOverrides(env: seq<string>, init: seq<string>, extra: string, r: seq<string>)
    requires IsOverride(env, init, r) && (extra == "" || '=' in extra)
    ensures IsOverride(env, init + [extra], MergeOne(r, extra))
  {
    if extra == "" {
      assert (init + [extra])[..|init|] == init;
    } else {
      MatchExistsIff(env, init, extra, r);
      if KeyIn(env, Key(extra)) || Key(extra) in FreshKeys(env, init) {
        ReplaceOverrides(env, init, extra, r);
      } else {
        AppendOverrides(env, init, extra, r);
      }
    }
  }

  /** The merged environment is the override of the inherited one, entry by entry. */
  lemma {:induction false} MergeOverrides(env: seq<string>, extras: seq<string>)
    requires WellFormed(extras)
    ensures IsOverride(env, extras, Merge(env, extras))
  {
    if extras != [] {
      var init := extras[..|extras| - 1];
      MergeOverrides(env, init);
      MergeOneOverrides(env, init, extras[|extras| - 1], Merge(env, init));
      assert extras == init + [extras[|extras| - 1]];
    }
  }

  lemma {:induction false} LookupNone(env: seq<string>, key: string)
    requires !KeyIn(env, key)
    ensures Lookup(env, key) == None
  {
    if env != [] {
      assert forall i :: 0 <= i < |env[1..]| ==> env[1..][i] == env[i + 1];
      LookupNone(env[1..], key);
    }
  }

  /** When all entries with a key agree, that is what a look-up finds. */
  lemma {:induction false} LookupAgreed(env: seq<string>, key: string, entry: string)
    requires KeyIn(env, key) && forall i :: 0 <= i < |env| && Defines(env[i], key) ==> env[i] == entry
    ensures Lookup(env, key) == Some(entry)
  {
    if !Defines(env[0], key) {
      var i :| 0 <= i < |env| && Defines(env[i], key);
      assert env[1..][i - 1] == env[i];
      assert forall i :: 0 <= i < |env[1..]| ==> env[1..][i] == env[i + 1];
      LookupAgreed(env[1..], key, entry);
    }
  }

  /** A look-up sees only the entries with its key. */
  lemma {:induction false} LookupSame(env: seq<string>, r: seq<string>, key: string)
    requires |env| <= |r|
    requires forall i :: 0 <= i < |env| ==>
            (Defines(r[i], key) <==> Defines(env[i], key)) && (Defines(env[i], key) ==> r[i] == env[i])
    requires forall i :: |env| <= i < |r| ==> !Defines(r[i], key)
    ensures Lookup(r, key) == Lookup(env, key)
  {
    if env == [] {
      LookupNone(r, key);
    } else if !Defines(env[0], key) {
      assert forall i :: 0 <= i < |env[1..]| ==> env[1..][i] == env[i + 1];
      assert forall i :: 0 <= i < |r[1..]| ==> r[1..][i] == r[i + 1];
      LookupSame(env[1..], r[1..], key);
    }
  }

  lemma {:induction false} FreshKeysAreFresh(env: seq<string>, extras: seq<string>, key: string)
    requires WellFormed(extras)
    ensures key in FreshKeys(env, extras) <==> !KeyIn(env, key) && LastExtra(extras, key).Some?
  {
    if extras != [] {
      FreshKeysAreFresh(env, extras[..|extras| - 1], key);
    }
  }

  lemma {:induction false} OverriddenAgree(env: seq<string>, extras: seq<string>, r: seq<string>, key: string, i: nat)
    requires IsOverride(env, extras, r) && LastExtra(extras, key).Some? && i < |r| && Defines(r[i], key)
    ensures r[i] == LastExtra(extras, key).value
  {
    DefinersOf(env, extras, r, key, i);
  }

  lemma {:induction false} OverriddenIn(env: seq<string>, extras: seq<string>, r: seq<string>, key: string)
    requires WellFormed(extras) && IsOverride(env, extras, r) && LastExtra(extras, key).Some?
    ensures KeyIn(r, key)
  {
    var added := FreshKeys(env, extras);
    FreshKeysAreFresh(env, extras, key);
    if KeyIn(env, key) {
      var i: nat :| i < |env| && Defines(env[i], key);
      DefinersOf(env, extras, r, key, i);
    } else {
      var i: nat :| i < |added| && added[i] == key;
      DefinersOf(env, extras, r, key, |env| + i);
    }
  }

  lemma {:induction false} InheritedLookup(env: seq<string>, extras: seq<string>, r: seq<string>, key: string)
    requires WellFormed(extras) && IsOverride(env, extras, r) && LastExtra(extras, key).None?
    ensures Lookup(r, key) == Lookup(env, key)
  {
    FreshKeysAreFresh(env, extras, key);
    forall i: nat | i < |r| ensures Defines(r[i], key) <==> i < |env| && Defines(env[i], key) {
      DefinersOf(env, extras, r, key, i);
    }
    LookupSame(env, r, key);
  }

  /**
   * Looking a key up after the merge finds the last extra with that key, or else what was inherited;
   * and every entry with an overridden key says the same.
   */
  lemma {:induction false} MergedLookup(env: seq<string>, extras: seq<string>, key: string)
    requires WellFormed(extras)
    ensures var r, last := Merge(env, extras), LastExtra(extras, key);
            && Lookup(r, key) == (if last.Some? then last else Lookup(env, key))
            && (last.Some? ==> forall i :: 0 <= i < |r| && Defines(r[i], key) ==> r[i] == last.value)
  {
    var r, last := Merge(env, extras), LastExtra(extras, key);
    MergeOverrides(env, extras);
    if last.Some? {
      forall i | 0 <= i < |r| && Defines(r[i], key) ensures r[i] == last.value {
        OverriddenAgree(env, extras, r, key, i);
      }
      OverriddenIn(env, extras, r, key);
      LookupAgreed(r, key, last.value);
    } else {
      InheritedLookup(env, extras, r, key);
    }
  }
}
