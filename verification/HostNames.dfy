/** The names ssh reaches targets by, and the ssh config generated for them. */
module HostNames {
  import opened Text
  import opened OwnConfig

  datatype Target = Target(id: string, name: string, usernames: seq<string>)

  predicate Alnum(c: char) {
    'a' <= c <= 'z' || 'A' <= c <= 'Z' || '0' <= c <= '9'
  }

  /** ^[a-zA-Z0-9][a-zA-Z0-9_-]*$ */
  predicate TargetName(s: string) {
    s != [] && Alnum(s[0]) && forall i :: 0 <= i < |s| ==> Alnum(s[i]) || s[i] == '_' || s[i] == '-'
  }

  /** ^[A-Za-z_][A-Za-z0-9._-]*$ */
  predicate AccountName(s: string) {
    s != [] && (s[0] == '_' || (Alnum(s[0]) && !('0' <= s[0] <= '9')))
    && forall i :: 0 <= i < |s| ==> Alnum(s[i]) || s[i] == '_' || s[i] == '-' || s[i] == '.'
  }

  predicate Usable(t: Target) {
    |t.usernames| > 0 && TargetName(t.name) && AccountName(t.usernames[0])
  }

  const PREFIX := "nokku/"

  // ---- Aliases -------------------------------------------------------------

  /** How many usable targets bear this name, case folded. */
  function NameCount(ts: seq<Target>, lower: string): nat {
    if ts == [] then 0
    else
      var last := ts[|ts| - 1];
      NameCount(ts[..|ts| - 1], lower) + (if Usable(last) && ToLower(last.name) == lower then 1 else 0)
  }

  predicate Shared(ts: seq<Target>, t: Target) {
    NameCount(ts, ToLower(t.name)) > 1
  }

  function AliasOf(ts: seq<Target>, own: seq<Block>, t: Target): string {
    if Shared(ts, t) then PREFIX + t.id
    else if Claims(own, t.name) then PREFIX + t.name
    else t.name
  }

  /** The alias map after the first targets of `some` were handled. */
  function AliasMap(ts: seq<Target>, own: seq<Block>, some: seq<Target>): map<string, string> {
    if some == [] then map[]
    else
      var last := some[|some| - 1];
      var before := AliasMap(ts, own, some[..|some| - 1]);
      if Usable(last) then before[last.id := AliasOf(ts, own, last)] else before
  }

  method Claimed(own: seq<Block>, name: string) returns (r: bool)
    ensures r <==> Claims(own, name)
  {
    var lower := ToLower(name);
    for k := 0 to |own|
      invariant forall i :: 0 <= i < k ==> !(own[i].dest && Names(own[i].patterns, lower))
    {
      if own[k].dest {
        var m := Matches(own[k].patterns, lower);
        if m {
          return true;
        }
      }
    }
    r := false;
  }

  method HostAliases(ts: seq<Target>, own: seq<Block>) returns (aliases: map<string, string>)
    ensures aliases == AliasMap(ts, own, ts)
  {
    var names: map<string, nat> := map[];
    for k := 0 to |ts|
      invariant forall n :: NameCount(ts[..k], n) == if n in names then names[n] else 0
    {
      assert ts[..k + 1][..k] == ts[..k];
      if Usable(ts[k]) {
        var lower := ToLower(ts[k].name);
        names := names[lower := (if lower in names then names[lower] else 0) + 1];
      }
    }
    assert ts[..|ts|] == ts;
    aliases := map[];
    for k := 0 to |ts|
      invariant aliases == AliasMap(ts, own, ts[..k])
    {
      var t := ts[k];
      assert ts[..k + 1][..k] == ts[..k];
      if !Usable(t) {
        continue;
      }
      var lower := ToLower(t.name);
      if (if lower in names then names[lower] else 0) > 1 {
        aliases := aliases[t.id := PREFIX + t.id];
      } else {
        var claimed := Claimed(own, t.name);
        aliases := aliases[t.id := if claimed then PREFIX + t.name else t.name];
      }
    }
  }

  /** Ids differ even without their case, as canonical UUIDs do. */
  predicate IdsUnique(ts: seq<Target>) {
    forall i, j :: 0 <= i < j < |ts| ==> ToLower(ts[i].id) != ToLower(ts[j].id)
  }

  lemma {:induction false} AliasMapAt(ts: seq<Target>, own: seq<Block>, some: seq<Target>, i: nat)
    requires i < |some| && IdsUnique(some)
    ensures Lookup(AliasMap(ts, own, some), some[i].id)
         == if Usable(some[i]) then Some(AliasOf(ts, own, some[i])) else None
  {
    var last := |some| - 1;
    if i < last {
      assert ToLower(some[i].id) != ToLower(some[last].id);
      AliasMapAt(ts, own, some[..last], i);
    } else {
      AliasMapMisses(ts, own, some[..last], some[i].id);
    }
  }

  lemma {:induction false} AliasMapMisses(ts: seq<Target>, own: seq<Block>, some: seq<Target>, id: string)
    requires forall i :: 0 <= i < |some| ==> some[i].id != id
    ensures id !in AliasMap(ts, own, some)
  {
    if some == [] {
    } else {
      AliasMapMisses(ts, own, some[..|some| - 1], id);
    }
  }

  lemma {:induction false} NameCountTwo(ts: seq<Target>, i: nat, j: nat)
    requires i < j < |ts| && Usable(ts[i]) && Usable(ts[j])
    requires ToLower(ts[i].name) == ToLower(ts[j].name)
    ensures NameCount(ts, ToLower(ts[i].name)) > 1
  {
    var last := |ts| - 1;
    if j < last {
      NameCountTwo(ts[..last], i, j);
    } else {
      NameCountOne(ts[..last], i);
    }
  }

  lemma {:induction false} NameCountOne(ts: seq<Target>, i: nat)
    requires i < |ts| && Usable(ts[i])
    ensures NameCount(ts, ToLower(ts[i].name)) > 0
  {
    if i == |ts| - 1 {
    } else {
      NameCountOne(ts[..|ts| - 1], i);
    }
  }

  lemma {:induction false} NameCountNone(ts: seq<Target>, lower: string)
    requires forall i :: 0 <= i < |ts| && Usable(ts[i]) ==> ToLower(ts[i].name) != lower
    ensures NameCount(ts, lower) == 0
  {
    if ts == [] {
    } else {
      NameCountNone(ts[..|ts| - 1], lower);
    }
  }

  lemma {:induction false} NameCountAlone(ts: seq<Target>, i: nat)
    requires i < |ts| && Usable(ts[i])
    requires forall j :: 0 <= j < |ts| && j != i && Usable(ts[j]) ==> ToLower(ts[j].name) != ToLower(ts[i].name)
    ensures NameCount(ts, ToLower(ts[i].name)) == 1
  {
    var last := |ts| - 1;
    if i == last {
      NameCountNone(ts[..last], ToLower(ts[i].name));
    } else {
      NameCountAlone(ts[..last], i);
    }
  }

  /** Another usable target has the same name, ignoring case. */
  predicate SameName(ts: seq<Target>, i: nat)
    requires i < |ts|
  {
    exists j :: 0 <= j < |ts| && j != i && Usable(ts[j]) && ToLower(ts[j].name) == ToLower(ts[i].name)
  }

  lemma {:induction false} SharedMeans(ts: seq<Target>, i: nat)
    requires i < |ts| && Usable(ts[i])
    ensures Shared(ts, ts[i]) <==> SameName(ts, i)
  {
    if SameName(ts, i) {
      var j :| 0 <= j < |ts| && j != i && Usable(ts[j]) && ToLower(ts[j].name) == ToLower(ts[i].name);
      if i < j {
        NameCountTwo(ts, i, j);
      } else {
        NameCountTwo(ts, j, i);
      }
    } else {
      NameCountAlone(ts, i);
    }
  }

  /** Every usable target has one alias and no other target has any: its bare name
      when no other usable target has that name and the user's config does not
      claim it, and else the name, or the id where the name is not its own, with
      `nokku/` in front. */
  lemma {:induction false} AliasesAreTotal(ts: seq<Target>, own: seq<Block>, i: nat)
    requires i < |ts| && IdsUnique(ts)
    ensures Lookup(AliasMap(ts, own, ts), ts[i].id)
         == if !Usable(ts[i]) then None
            else if SameName(ts, i) then Some("nokku/" + ts[i].id)
            else if Claims(own, ts[i].name) then Some("nokku/" + ts[i].name)
            else Some(ts[i].name)
  {
    AliasMapAt(ts, own, ts, i);
    if Usable(ts[i]) {
      SharedMeans(ts, i);
    }
  }

  /** A word of letters, digits and a few more characters. */
  predicate SafeInConfig(s: string, more: string) {
    s != "" && forall c :: c in s ==> 'a' <= c <= 'z' || 'A' <= c <= 'Z' || '0' <= c <= '9' || c in more
  }

  lemma {:induction false} TargetNameMeans(s: string)
    ensures TargetName(s) <==> SafeInConfig(s, "-_") && s[0] !in "-_"
  {
    if SafeInConfig(s, "-_") {
      forall i | 0 <= i < |s| ensures Alnum(s[i]) || s[i] == '_' || s[i] == '-' {
        assert s[i] in s;
      }
    }
  }

  lemma {:induction false} AccountNameMeans(s: string)
    ensures AccountName(s) <==> SafeInConfig(s, "-_.") && s[0] !in "-." && !('0' <= s[0] <= '9')
  {
    if SafeInConfig(s, "-_.") {
      forall i | 0 <= i < |s| ensures Alnum(s[i]) || s[i] == '_' || s[i] == '-' || s[i] == '.' {
        assert s[i] in s;
      }
    }
  }

  /** What goes into ssh_config: names of letters, digits, `_` and `-` that start
      with a letter or digit, and accounts that may also have dots and do not start
      with a digit, a dot or `-`. */
  lemma {:induction false} UsableMeans(t: Target)
    ensures Usable(t) <==> t.usernames != [] && SafeInConfig(t.name, "-_") && t.name[0] !in "-_"
                           && SafeInConfig(t.usernames[0], "-_.")
                           && t.usernames[0][0] !in "-." && !('0' <= t.usernames[0][0] <= '9')
  {
    TargetNameMeans(t.name);
    if t.usernames != [] {
      AccountNameMeans(t.usernames[0]);
    }
  }

  lemma {:induction false} LowerAppend(a: string, b: string)
    ensures ToLower(a + b) == ToLower(a) + ToLower(b)
  {
  }

  /** Two prefixed names are the same, case folded, when what follows is. */
  lemma {:induction false} PrefixCancels(a: string, b: string)
    ensures ToLower(PREFIX + a) == ToLower(PREFIX + b) <==> ToLower(a) == ToLower(b)
  {
    LowerAppend(PREFIX, a);
    LowerAppend(PREFIX, b);
    var p := ToLower(PREFIX);
    assert ToLower(a) == (p + ToLower(a))[|p|..] && ToLower(b) == (p + ToLower(b))[|p|..];
  }

  lemma {:induction false} BareIsNotPrefixed(name: string, a: string)
    requires TargetName(name)
    ensures ToLower(name) != ToLower(PREFIX + a)
  {
    var p := ToLower(PREFIX + a);
    assert p[5] == '/';
    if |name| > 5 {
      assert name[5] != '/' && ToLower(name)[5] != '/';
    }
  }

  /** A name that several targets share sends one of them to its id, and another
      target, alone with its name but claimed by the user, is named like that id. */
  predicate NameTakesId(ts: seq<Target>, own: seq<Block>, i: nat, j: nat)
    requires i < |ts| && j < |ts|
  {
    && Usable(ts[i]) && Usable(ts[j])
    && Shared(ts, ts[i]) && !Shared(ts, ts[j]) && Claims(own, ts[j].name)
    && ToLower(ts[j].name) == ToLower(ts[i].id)
  }

  lemma {:induction false} AliasPair(ts: seq<Target>, own: seq<Block>, i: nat, j: nat)
    requires i < j < |ts| && IdsUnique(ts) && Usable(ts[i]) && Usable(ts[j])
    ensures ToLower(AliasOf(ts, own, ts[i])) == ToLower(AliasOf(ts, own, ts[j]))
       <==> NameTakesId(ts, own, i, j) || NameTakesId(ts, own, j, i)
  {
    var a, b := ts[i], ts[j];
    if ToLower(a.name) == ToLower(b.name) {
      NameCountTwo(ts, i, j);
    }
    PrefixCancels(a.id, b.id);
    PrefixCancels(a.id, b.name);
    PrefixCancels(a.name, b.id);
    PrefixCancels(a.name, b.name);
    BareIsNotPrefixed(a.name, b.id);
    BareIsNotPrefixed(a.name, b.name);
    BareIsNotPrefixed(b.name, a.id);
    BareIsNotPrefixed(b.name, a.name);
  }

  /** Aliases are pairwise distinct, ignoring case, exactly when no target is
      named like the id of one that had to fall back to its id. */
  lemma {:induction false} AliasesAreDistinct(ts: seq<Target>, own: seq<Block>)
    requires IdsUnique(ts)
    ensures (forall i, j :: 0 <= i < j < |ts| && Usable(ts[i]) && Usable(ts[j]) ==>
               ToLower(AliasOf(ts, own, ts[i])) != ToLower(AliasOf(ts, own, ts[j])))
       <==> (forall i, j :: 0 <= i < |ts| && 0 <= j < |ts| ==> !NameTakesId(ts, own, i, j))
  {
    forall i, j | 0 <= i < j < |ts| && Usable(ts[i]) && Usable(ts[j])
      ensures ToLower(AliasOf(ts, own, ts[i])) == ToLower(AliasOf(ts, own, ts[j]))
         <==> NameTakesId(ts, own, i, j) || NameTakesId(ts, own, j, i)
    {
      AliasPair(ts, own, i, j);
    }
    forall i, j | 0 <= i < |ts| && 0 <= j < |ts| && NameTakesId(ts, own, i, j) ensures i != j {
    }
  }

  // ---- A collision ---------------------------------------------------------

  predicate HexDigit(c: char) {
    '0' <= c <= '9' || 'a' <= c <= 'f'
  }

  /** The canonical form of a UUID, the only ids that are let in. */
  predicate Uuid(id: string) {
    |id| == 36 && forall i :: 0 <= i < 36 ==> if i in {8, 13, 18, 23} then id[i] == '-' else HexDigit(id[i])
  }

  lemma {:induction false} UuidIsPlain(id: string)
    requires Uuid(id)
    ensures ToLower(id) == id && TargetName(id) && NoWildcard(id)
  {
    forall i | 0 <= i < 36 ensures LowerChar(id[i]) == id[i] && id[i] != '*' && id[i] != '?' && id[i] != '!' {
    }
  }

  /** Canonical ids that differ also differ without their case. */
  lemma {:induction false} UuidsUnique(ts: seq<Target>)
    requires forall i :: 0 <= i < |ts| ==> Uuid(ts[i].id)
    requires forall i, j :: 0 <= i < j < |ts| ==> ts[i].id != ts[j].id
    ensures IdsUnique(ts)
  {
    forall i, j | 0 <= i < j < |ts| ensures ToLower(ts[i].id) != ToLower(ts[j].id) {
      UuidIsPlain(ts[i].id);
      UuidIsPlain(ts[j].id);
    }
  }

  lemma {:induction false} ClaimsItself(id: string)
    requires Uuid(id)
    ensures Claims([Block([id], true)], id)
  {
    var own := [Block([id], true)];
    UuidIsPlain(id);
    GlobPlain(id, id);
    assert own[0].patterns[0] == id && HexDigit(id[0]) && HexDigit(id[1]);
    assert Names(own[0].patterns, id);
  }

  lemma {:induction false} NameCountThree(a: Target, b: Target, c: Target, lower: string)
    requires ToLower(a.name) != lower && ToLower(b.name) != lower
    ensures NameCount([a, b, c], lower) <= 1
  {
    assert [a, b, c][..2] == [a, b] && [a, b][..1] == [a] && [a][..0] == [];
    assert NameCount([a], lower) == 0;
    assert NameCount([a, b], lower) == 0;
  }

  /** The condition is not idle, for any three ids: two servers share a name, and a
      third one is named like the first one's id, which the user's config has as
      well. Then the first and the third one get the same alias. */
  lemma {:induction false} AliasCollision(a: string, b: string, c: string)
    requires Uuid(a) && Uuid(b) && Uuid(c) && a != b && a != c && b != c
    ensures var ts := [Target(a, "web", ["root"]), Target(b, "WEB", ["root"]), Target(c, a, ["root"])];
            var own := [Block([a], true)];
            && IdsUnique(ts) && NameTakesId(ts, own, 0, 2)
            && AliasOf(ts, own, ts[0]) == AliasOf(ts, own, ts[2]) == PREFIX + a
  {
    var ts := [Target(a, "web", ["root"]), Target(b, "WEB", ["root"]), Target(c, a, ["root"])];
    UuidsUnique(ts);
    UuidIsPlain(a);
    assert ToLower("web") == "web" && ToLower("WEB") == "web" && |a| != |"web"|;
    assert Shared(ts, ts[0]) by {
      NameCountTwo(ts, 0, 1);
    }
    assert !Shared(ts, ts[2]) by {
      NameCountThree(ts[0], ts[1], ts[2], a);
    }
    ClaimsItself(a);
  }
}
