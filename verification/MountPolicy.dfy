/** Which collections may be mounted. */
module MountPolicy {
  import opened ConfigMerge
  import opened Lexical
  import opened Text
  import opened Trees

  /** An empty item stands for everything. */
  function Item(s: string): (r: string)
    ensures r != ""
  {
    if TrimSpace(s) == "" then "/" else TrimSpace(s)
  }

  function Items(parts: seq<string>): (r: seq<string>)
    ensures |r| == |parts| && forall i | 0 <= i < |r| :: r[i] == Item(parts[i])
  {
    seq(|parts|, i requires 0 <= i < |parts| => Item(parts[i]))
  }

  function WhitelistKey(): string {
    Normalize("mount_path_whitelist")
  }

  function Whitelist(configs: Params): seq<string> {
    if WhitelistKey() in configs && configs[WhitelistKey()] != "" then Items(Split(configs[WhitelistKey()], ','))
    else ["/"]
  }

  method NormalizeItems(items: array<string>)
    modifies items
    ensures items[..] == Items(old(items[..]))
  {
    ghost var was := items[..];
    for i := 0 to items.Length
      invariant forall j | 0 <= j < i :: items[j] == Item(was[j])
      invariant forall j | i <= j < items.Length :: items[j] == was[j]
    {
      var item := TrimSpace(items[i]);
      if |item| == 0 {
        item := "/";
      }
      items[i] := item;
    }
  }

  method GetConfigMountPathWhitelist(configs: Params) returns (items: array<string>)
    ensures fresh(items) && items[..] == Whitelist(configs)
  {
    if WhitelistKey() in configs {
      var whitelist := configs[WhitelistKey()];
      if |whitelist| > 0 {
        var parts := Split(whitelist, ',');
        items := new string[|parts|](i requires 0 <= i < |parts| => parts[i]);
        assert items[..] == parts;
        NormalizeItems(items);
        return;
      }
    }
    items := new string[1](_ => "/");
  }

  predicate IsSubDir(parent: string, sub: string) {
    var rel := Rel(parent, sub);
    rel.Some? && !(".." <= rel.value)
  }

  predicate IsMountPathAllowed(whitelist: seq<string>, path: string) {
    exists i | 0 <= i < |whitelist| :: IsSubDir(whitelist[i], path)
  }

  predicate AllAllowed(whitelist: seq<string>, paths: seq<string>) {
    forall i | 0 <= i < |paths| :: IsMountPathAllowed(whitelist, paths[i])
  }

  method AllowsAll(whitelist: seq<string>, paths: seq<string>) returns (ok: bool)
    ensures ok <==> AllAllowed(whitelist, paths)
  {
    for i := 0 to |paths|
      invariant forall j | 0 <= j < i :: IsMountPathAllowed(whitelist, paths[j])
    {
      var allowed := IsMountPathAllowed(whitelist, paths[i]);
      if !allowed {
        return false;
      }
    }
    return true;
  }

  /** The last test of GetConnectionInfo. */
  method CheckMappings(configs: Params, paths: seq<string>) returns (ok: bool)
    ensures ok <==> AllAllowed(Whitelist(configs), paths)
  {
    var whitelist := GetConfigMountPathWhitelist(configs);
    ok := AllowsAll(whitelist[..], paths);
  }

  /** The path is the item or lies below it, and the first name on the way down does not start with two
      dots. */
  predicate LeadsTo(item: string, path: string) {
    Within(item, path) && (Parts(item) == Parts(path) || !(".." <= FirstLeft(item, path)))
  }

  predicate SomeLeadsTo(items: seq<string>, path: string) {
    exists i | 0 <= i < |items| :: LeadsTo(items[i], path)
  }

  /** One path is taken to lie under another exactly when it does, except below a name that starts
      with two dots. */
  lemma {:induction false} SubDirIff(parent: string, sub: string)
    ensures IsSubDir(parent, sub) <==> LeadsTo(parent, sub)
  {
    RelStarts(parent, sub);
  }

  lemma {:induction false} AllowedIff(whitelist: seq<string>, path: string)
    ensures IsMountPathAllowed(whitelist, path)
        <==> SomeLeadsTo(whitelist, path)
  {
    forall i | 0 <= i < |whitelist| {
      SubDirIff(whitelist[i], path);
    }
  }

  lemma {:induction false} AllowedWithin(whitelist: seq<string>, path: string)
    requires IsMountPathAllowed(whitelist, path)
    ensures exists i | 0 <= i < |whitelist| :: Within(whitelist[i], path)
  {
    var i :| 0 <= i < |whitelist| && IsSubDir(whitelist[i], path);
    SubDirIff(whitelist[i], path);
  }

  /** With no whitelist set, or an empty one, every absolute path is allowed whose first name does not start with two
      dots, and nothing else is. */
  lemma {:induction false} DefaultAllows(configs: Params, path: string)
    requires WhitelistKey() in configs ==> configs[WhitelistKey()] == ""
    ensures IsMountPathAllowed(Whitelist(configs), path)
        <==> IsAbs(path) && (Parts(path).names == [] || !(".." <= Parts(path).names[0]))
  {
    SplitNothing();
    assert "/" == "/" + "";
    PartsOfAbsolute("");
    assert Parts("/") == CleanPath(true, []);
    var whitelist := Whitelist(configs);
    assert whitelist == ["/"] && whitelist[0] == "/";
    assert IsMountPathAllowed(whitelist, path) <==> IsSubDir(whitelist[0], path);
    SubDirIff("/", path);
    assert Within("/", path) <==> IsAbs(path);
  }

  // ---------- what a list says ----------

  /** The piece is the item with white space around it. */
  ghost predicate Pads(piece: string, item: string) {
    IsBare(item) && exists a: string, b: string :: AllSpace(a) && AllSpace(b) && piece == a + item + b
  }

  /** The text has these items between its commas. */
  ghost predicate Lists(text: string, items: seq<string>) {
    exists pieces: seq<string> ::
      && pieces != [] && |pieces| == |items| && text == Join(pieces, ',')
      && forall i | 0 <= i < |items| :: ',' !in pieces[i] && Pads(pieces[i], items[i])
  }

  /** The path lies at or below one of the items, where a blank one stands for the root. */
  ghost predicate Covered(items: seq<string>, path: string) {
    exists i | 0 <= i < |items| :: Within(if items[i] == "" then "/" else items[i], path)
  }

  lemma {:induction false} ItemOf(piece: string, item: string)
    requires Pads(piece, item)
    ensures Item(piece) == if item == "" then "/" else item
  {
    var a: string, b: string :| AllSpace(a) && AllSpace(b) && piece == a + item + b;
    TrimSpaceOf(a, item, b);
  }

  lemma {:induction false} ListedItems(text: string, items: seq<string>)
    requires Lists(text, items)
    ensures |Items(Split(text, ','))| == |items|
    ensures forall i | 0 <= i < |items| :: Items(Split(text, ','))[i] == if items[i] == "" then "/" else items[i]
  {
    var pieces: seq<string> :|
      && pieces != [] && |pieces| == |items| && text == Join(pieces, ',')
      && forall i | 0 <= i < |items| :: ',' !in pieces[i] && Pads(pieces[i], items[i]);
    SplitOfJoin(pieces, ',');
    forall i | 0 <= i < |items|
      ensures Item(pieces[i]) == if items[i] == "" then "/" else items[i]
    {
      ItemOf(pieces[i], items[i]);
    }
  }

  /** Items without white space around them are listed by putting commas between them. */
  lemma {:induction false} JoinLists(items: seq<string>)
    requires items != [] && forall i | 0 <= i < |items| :: ',' !in items[i] && IsBare(items[i])
    ensures Lists(Join(items, ','), items)
  {
    forall i | 0 <= i < |items|
      ensures Pads(items[i], items[i])
    {
      assert AllSpace("") && items[i] == "" + items[i] + "";
    }
  }

  /** Every text lists something. */
  lemma {:induction false} SomeListed(text: string) returns (items: seq<string>)
    ensures Lists(text, items)
  {
    var pieces := Split(text, ',');
    items := seq(|pieces|, i requires 0 <= i < |pieces| => TrimSpace(pieces[i]));
    JoinOfSplit(text, ',');
    forall i | 0 <= i < |items|
      ensures ',' !in pieces[i] && Pads(pieces[i], items[i])
    {
      assert pieces[i] in pieces;
      var a, b := TrimmedOff(pieces[i]);
    }
  }

  // ---------- what the driver's list promises ----------

  lemma {:induction false} WhitelistWords()
    ensures "mount_path_whitelist" == "mount" + "_" + "path" + "_" + "whitelist"
    ensures "mountpathwhitelist" == "mount" + "path" + "whitelist"
    ensures IsPlain("mount") && IsPlain("path") && IsPlain("whitelist")
  {
  }

  lemma {:induction false} WhitelistKeyIs()
    ensures WhitelistKey() == "mountpathwhitelist"
  {
    WhitelistWords();
    KeyOfThree("mount_path_whitelist", "mountpathwhitelist", "mount", "path", "whitelist");
  }

  /** If the driver's secrets set a whitelist, one that they set bounds every mapping that is accepted,
      whatever the volume's parameters and secrets say. */
  lemma {:induction false} WhitelistHolds(config: DriverConfig, driverSecrets: Params, volSecrets: Params, volParams: Params,
                                          configs: Params, paths: seq<string>)
    requires Merged(config, driverSecrets, volSecrets, volParams, configs) && AllAllowed(Whitelist(configs), paths)
    requires exists text: string :: Sets(driverSecrets, "mountpathwhitelist", text)
    ensures exists text: string :: Sets(driverSecrets, "mountpathwhitelist", text)
              && forall items: seq<string>, p | Lists(text, items) && 0 <= p < |paths| :: Covered(items, paths[p])
  {
    var text := DriversList(config, driverSecrets, volSecrets, volParams, configs);
    forall items: seq<string>, p | Lists(text, items) && 0 <= p < |paths|
      ensures Covered(items, paths[p])
    {
      ListedItems(text, items);
      AllowedWithin(Whitelist(configs), paths[p]);
      var i :| 0 <= i < |Whitelist(configs)| && Within(Whitelist(configs)[i], paths[p]);
      assert i < |items|;
    }
  }

  lemma {:induction false} DriversList(config: DriverConfig, driverSecrets: Params, volSecrets: Params, volParams: Params, configs: Params)
      returns (text: string)
    requires Merged(config, driverSecrets, volSecrets, volParams, configs)
    requires exists text: string :: Sets(driverSecrets, "mountpathwhitelist", text)
    ensures Sets(driverSecrets, "mountpathwhitelist", text) && Whitelist(configs) == Items(Split(text, ','))
  {
    WhitelistKeyIs();
    var name := WhitelistKey();
    NormalIsPlain("mount_path_whitelist");
    assert name[0] == 'm' && "storagepath"[0] == 's' && "poolendpoint"[0] == 'p';
    MergeLaw(config, driverSecrets, volSecrets, volParams, configs, name);
    text := configs[name];
  }

  lemma {:induction false} AllAllowedIff(items: seq<string>, paths: seq<string>)
    ensures AllAllowed(items, paths) <==> forall p | 0 <= p < |paths| :: SomeLeadsTo(items, paths[p])
  {
    forall p | 0 <= p < |paths|
      ensures IsMountPathAllowed(items, paths[p]) <==> SomeLeadsTo(items, paths[p])
    {
      AllowedIff(items, paths[p]);
    }
  }

  lemma {:induction false} OnlyList(config: DriverConfig, driverSecrets: Params, volSecrets: Params, volParams: Params,
                                    configs: Params, text: string)
    requires Merged(config, driverSecrets, volSecrets, volParams, configs) && Sets(driverSecrets, "mountpathwhitelist", text)
    requires forall t: string | Sets(driverSecrets, "mountpathwhitelist", t) :: t == text
    ensures Whitelist(configs) == Items(Split(text, ','))
  {
    var t := DriversList(config, driverSecrets, volSecrets, volParams, configs);
  }

  /** If they set just one list, it decides alone: the mappings are accepted exactly when each lies at or
      below some item, and the first name on the way down does not start with two dots. */
  lemma {:induction false} WhitelistDecides(config: DriverConfig, driverSecrets: Params, volSecrets: Params, volParams: Params,
                                            configs: Params, text: string, items: seq<string>, paths: seq<string>)
    requires Merged(config, driverSecrets, volSecrets, volParams, configs) && Sets(driverSecrets, "mountpathwhitelist", text)
    requires forall t: string | Sets(driverSecrets, "mountpathwhitelist", t) :: t == text
    requires Lists(text, items) && "" !in items
    ensures AllAllowed(Whitelist(configs), paths) <==> forall p | 0 <= p < |paths| :: SomeLeadsTo(items, paths[p])
  {
    OnlyList(config, driverSecrets, volSecrets, volParams, configs, text);
    ListedAsIs(text, items);
    AllAllowedIff(items, paths);
  }

  lemma {:induction false} ListedAsIs(text: string, items: seq<string>)
    requires Lists(text, items) && "" !in items
    ensures Items(Split(text, ',')) == items
  {
    ListedItems(text, items);
  }
}
