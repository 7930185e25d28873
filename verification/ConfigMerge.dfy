/** Merging the configuration of the driver with that of a volume. */
module ConfigMerge {
  import opened Text
  import opened Trees

  type Params = map<string, string>

  function Strip(s: string): (r: string)
    ensures '_' !in r && forall c | c in r :: c in s
  {
    if s == "" then "" else (if s[0] == '_' then [] else [s[0]]) + Strip(s[1..])
  }

  /** "driver" is renamed before the underscores are removed. */
  function Normalize(key: string): string {
    var k := ToLower(key);
    if k == "driver" then "client" else Strip(k)
  }

  lemma {:induction false} StripKeeps(s: string)
    requires '_' !in s
    ensures Strip(s) == s
  {
    if s != "" {
      StripKeeps(s[1..]);
    }
  }

  /** Normalising a key a second time changes it exactly when the first time gave "driver". */
  lemma {:induction false} NormalizeTwice(key: string)
    ensures Normalize(Normalize(key)) == Normalize(key) <==> Normalize(key) != "driver"
  {
    var k := Normalize(key);
    assert ToLower(k) == k by {
      assert ToLower("client") == "client";
      assert forall c | c in ToLower(key) :: LowerChar(c) == c;
      assert forall i | 0 <= i < |k| :: k[i] in k;
    }
    if k != "driver" {
      assert "client"[0] == 'c' && "client"[1] == 'l' && "client"[2] == 'i';
      StripKeeps(k);
    }
  }

  lemma {:induction false} LowerKept(s: string)
    requires forall c | c in s :: 'Z' < c
    ensures ToLower(s) == s
  {
    assert forall i | 0 <= i < |s| :: s[i] in s;
  }

  /** Normalising keeps how most keys start. */
  lemma {:induction false} StartKept(key: string)
    requires key != "" && key[0] != '_' && LowerChar(key[0]) != 'd'
    ensures Normalize(key) != "" && Normalize(key)[0] == LowerChar(key[0])
  {
    assert ToLower(key)[0] == LowerChar(key[0]) && "driver"[0] == 'd';
  }

  // ---------- what normalising means ----------

  /** The key is the name in any letter case, with underscores put in anywhere. */
  predicate Spells(key: string, name: string) {
    if key == "" then name == ""
    else || (key[0] == '_' && Spells(key[1..], name))
         || (name != "" && SameLetter(key[0], name[0]) && Spells(key[1..], name[1..]))
  }

  /** "driver" is an old word for "client", as long as it has no underscores. */
  predicate Means(key: string, name: string) {
    if SpellsLetters(key, "driver") then name == "client" else Spells(key, name)
  }

  predicate IsPlain(name: string) {
    forall i | 0 <= i < |name| :: name[i] != '_' && !('A' <= name[i] <= 'Z')
  }

  lemma {:induction false} PlainRest(name: string)
    requires IsPlain(name) && name != ""
    ensures IsPlain(name[1..])
  {
    assert forall i | 0 <= i < |name[1..]| :: name[1..][i] == name[i + 1];
  }

  lemma {:induction false} StripIff(key: string, name: string)
    requires IsPlain(name)
    ensures Strip(ToLower(key)) == name <==> Spells(key, name)
  {
    if key != "" {
      assert ToLower(key)[1..] == ToLower(key[1..]);
      StripIff(key[1..], name);
      if name != "" {
        PlainRest(name);
        StripIff(key[1..], name[1..]);
        assert name == [name[0]] + name[1..];
        assert SameLetter(key[0], name[0]) <==> LowerChar(key[0]) == name[0];
      }
    }
  }

  /** The normal form of a key is the plain name that the key means. */
  lemma {:induction false} NormalizeIff(key: string, name: string)
    ensures IsPlain(Normalize(key))
    ensures IsPlain(name) ==> (Normalize(key) == name <==> Means(key, name))
  {
    NormalIsPlain(key);
    if IsPlain(name) {
      StripIff(key, name);
      LettersIff(key, "driver");
    }
  }

  lemma {:induction false} NormalIsPlain(key: string)
    ensures IsPlain(Normalize(key))
  {
    var k := Strip(ToLower(key));
    assert forall c | c in ToLower(key) :: !('A' <= c <= 'Z');
    assert forall i | 0 <= i < |k| :: k[i] in k;
  }

  lemma {:induction false} SpellsConcat(a: string, b: string, x: string, y: string)
    requires Spells(a, x) && Spells(b, y)
    ensures Spells(a + b, x + y)
    decreases |a|
  {
    if a == "" {
      assert a + b == b && x + y == y;
    } else {
      assert (a + b)[0] == a[0] && (a + b)[1..] == a[1..] + b;
      if a[0] == '_' && Spells(a[1..], x) {
        SpellsConcat(a[1..], b, x, y);
      } else {
        assert (x + y)[0] == x[0] && (x + y)[1..] == x[1..] + y;
        SpellsConcat(a[1..], b, x[1..], y);
      }
    }
  }

  lemma {:induction false} SpellsItself(a: string)
    ensures Spells(a, a)
  {
    if a != "" {
      SpellsItself(a[1..]);
    }
  }

  lemma {:induction false} SpellsTwo(a: string, b: string)
    ensures Spells(a + "_" + b, a + b)
  {
    SpellsItself(a);
    SpellsItself(b);
    assert "_"[1..] == "" && Spells("_", "");
    SpellsConcat(a, "_", a, "");
    SpellsConcat(a + "_", b, a + "", b);
    assert a + "" == a;
  }

  lemma {:induction false} SpellsThree(a: string, b: string, c: string)
    ensures Spells(a + "_" + b + "_" + c, a + b + c)
  {
    SpellsTwo(a, b);
    SpellsItself(c);
    assert "_"[1..] == "" && Spells("_", "");
    SpellsConcat(a + "_" + b, "_", a + b, "");
    SpellsConcat(a + "_" + b + "_", c, a + b + "", c);
    assert a + b + "" == a + b;
  }

  /** Words in camel case, as the documentation writes the keys. */
  lemma {:induction false} SpellsCapital(a: string, c: char, b: string, x: string, y: string)
    requires Spells(a, x) && 'A' <= c <= 'Z' && Spells(b, y)
    ensures Spells(a + [c] + b, x + [(c as int + 32) as char] + y)
  {
    var d := [(c as int + 32) as char];
    assert [c][1..] == "" && d[1..] == "" && SameLetter([c][0], d[0]);
    assert Spells([c], d);
    SpellsConcat(a, [c], x, d);
    SpellsConcat(a + [c], b, x + d, y);
  }

  lemma {:induction false} DriverSpelled()
    ensures IsPlain("driver") && IsPlain("client") && Spells("driver" + "_", "driver") && !SpellsLetters("driver" + "_", "driver")
  {
    SpellsItself("driver");
    assert "_"[1..] == "" && Spells("_", "");
    SpellsConcat("driver", "_", "driver", "");
    assert "driver" + "" == "driver";
  }

  /** A trailing underscore is enough for a second normalisation to change the key. */
  lemma {:induction false} DriverUnderscore()
    ensures Normalize("driver" + "_") == "driver" && Normalize(Normalize("driver" + "_")) == "client"
  {
    DriverSpelled();
    NormalizeIff("driver" + "_", "driver");
    NormalizeIff("driver", "client");
  }

  lemma {:induction false} KeyIs(key: string, name: string)
    requires Spells(key, name) && IsPlain(name) && name != "" && name[0] != 'd'
    ensures Normalize(key) == name
  {
    NormalizeIff(key, name);
    assert key[0] == '_' || SameLetter(key[0], name[0]);
    assert SpellsLetters(key, "driver") ==> SameLetter(key[0], "driver"[0]);
  }

  lemma {:induction false} KeyOfTwo(key: string, name: string, a: string, b: string)
    requires key == a + "_" + b && name == a + b && IsPlain(a) && IsPlain(b) && a != "" && a[0] != 'd'
    ensures Normalize(key) == name
  {
    SpellsTwo(a, b);
    KeyIs(key, name);
  }

  lemma {:induction false} KeyOfThree(key: string, name: string, a: string, b: string, c: string)
    requires key == a + "_" + b + "_" + c && name == a + b + c && IsPlain(a) && IsPlain(b) && IsPlain(c) && a != "" && a[0] != 'd'
    ensures Normalize(key) == name
  {
    SpellsThree(a, b, c);
    KeyIs(key, name);
  }

  lemma {:induction false} StorageWords()
    ensures "storage_path" == "storage" + "_" + "path" && "storagepath" == "storage" + "path"
    ensures IsPlain("storage") && IsPlain("path")
  {
  }

  lemma {:induction false} PoolWords()
    ensures "pool_endpoint" == "pool" + "_" + "endpoint" && "poolendpoint" == "pool" + "endpoint"
    ensures IsPlain("pool") && IsPlain("endpoint")
  {
  }

  lemma {:induction false} StorageKeyIs()
    ensures Normalize("storage_path") == "storagepath"
  {
    StorageWords();
    KeyOfTwo("storage_path", "storagepath", "storage", "path");
  }

  lemma {:induction false} PoolKeyIs()
    ensures Normalize("pool_endpoint") == "poolendpoint"
  {
    PoolWords();
    KeyOfTwo("pool_endpoint", "poolendpoint", "pool", "endpoint");
  }

  lemma {:induction false} CamelWords()
    ensures "retainData" == "retain" + ['D'] + "ata" && "retain" + ['d'] + "ata" == "retaindata"
    ensures "mountPathWhitelist" == "mount" + ['P'] + ("ath" + ['W'] + "hitelist")
    ensures "mount" + ['p'] + ("ath" + ['w'] + "hitelist") == "mountpathwhitelist"
  {
  }

  lemma {:induction false} CamelKeys()
    ensures Spells("retainData", "retaindata") && Spells("mountPathWhitelist", "mountpathwhitelist")
  {
    CamelWords();
    SpellsItself("retain");
    SpellsItself("ata");
    SpellsCapital("retain", 'D', "ata", "retain", "ata");
    SpellsItself("mount");
    SpellsItself("ath");
    SpellsItself("hitelist");
    SpellsCapital("ath", 'W', "hitelist", "ath", "hitelist");
    SpellsCapital("mount", 'P', "ath" + ['W'] + "hitelist", "mount", "ath" + ['w'] + "hitelist");
  }

  // ---------- merging ----------

  datatype DriverConfig = DriverConfig(poolServiceEndpoint: string, storagePath: string)

  /** The values a layer has for a normalised key: more than one if its keys collide. */
  function Values(layer: Params, keys: set<string>, n: string): set<string>
    requires keys <= layer.Keys
  {
    set k | k in keys && layer[k] != "" && Normalize(k) == n :: layer[k]
  }

  function All(layer: Params, n: string): set<string> {
    Values(layer, layer.Keys, n)
  }

  /** v is what the layer has for n, or below if it has nothing. */
  predicate Over(v: Option<string>, values: set<string>, below: Option<string>) {
    if values == {} then v == below else v.Some? && v.value in values
  }

  /** One layer written over another. Keys are visited in any order, so with colliding keys any of
      their values can win. */
  method Overlay(configs: Params, layer: Params) returns (r: Params)
    ensures forall n :: Over(Get(r, n), All(layer, n), Get(configs, n))
  {
    r := configs;
    var rest := layer.Keys;
    while rest != {}
      invariant rest <= layer.Keys
      invariant forall n :: Over(Get(r, n), Values(layer, layer.Keys - rest, n), Get(configs, n))
    {
      var k :| k in rest;
      ghost var seen, was := layer.Keys - rest, r;
      rest := rest - {k};
      if |layer[k]| > 0 {
        r := r[Normalize(k) := layer[k]];
      }
      forall n
        ensures Over(Get(r, n), Values(layer, layer.Keys - rest, n), Get(configs, n))
      {
        assert layer.Keys - rest == seen + {k};
        if layer[k] != "" && Normalize(k) == n {
          assert layer[k] in Values(layer, seen + {k}, n);
        } else {
          assert Values(layer, seen + {k}, n) == Values(layer, seen, n);
          assert Over(Get(was, n), Values(layer, seen, n), Get(configs, n));
        }
      }
    }
    assert layer.Keys - rest == layer.Keys;
  }

  /** The driver's own settings come first, then its secrets, the volume's parameters and the
      volume's secrets. */
  ghost predicate Merged(config: DriverConfig, driverSecrets: Params, volSecrets: Params, volParams: Params, r: Params) {
    forall n ::
      if n == Normalize("storage_path") && config.storagePath != "" then Get(r, n) == Some(config.storagePath)
      else if n == Normalize("pool_endpoint") && config.poolServiceEndpoint != "" then
        Get(r, n) == Some(config.poolServiceEndpoint)
      else if All(driverSecrets, n) != {} then Get(r, n).Some? && Get(r, n).value in All(driverSecrets, n)
      else if All(volParams, n) != {} then Get(r, n).Some? && Get(r, n).value in All(volParams, n)
      else Over(Get(r, n), All(volSecrets, n), None)
  }

  /** The driver's own settings, written last. */
  method OwnSettings(configs: Params, config: DriverConfig) returns (r: Params)
    ensures forall n ::
      Get(r, n) == (if n == Normalize("storage_path") && config.storagePath != "" then Some(config.storagePath)
                    else if n == Normalize("pool_endpoint") && config.poolServiceEndpoint != "" then
                      Some(config.poolServiceEndpoint)
                    else Get(configs, n))
  {
    r := configs;
    if |config.poolServiceEndpoint| > 0 {
      r := r[Normalize("pool_endpoint") := config.poolServiceEndpoint];
    }
    if |config.storagePath| > 0 {
      r := r[Normalize("storage_path") := config.storagePath];
    }
  }

  method MergeConfig(config: DriverConfig, driverSecrets: Params, volSecrets: Params, volParams: Params) returns (configs: Params)
    ensures Merged(config, driverSecrets, volSecrets, volParams, configs)
  {
    var secrets := Overlay(map[], volSecrets);
    var volume := Overlay(secrets, volParams);
    var layers := Overlay(volume, driverSecrets);
    configs := OwnSettings(layers, config);
    forall n
      ensures All(driverSecrets, n) == {} ==> Get(layers, n) == Get(volume, n)
      ensures All(volParams, n) == {} ==> Get(volume, n) == Get(secrets, n)
      ensures Over(Get(secrets, n), All(volSecrets, n), None)
    {
      assert Over(Get(layers, n), All(driverSecrets, n), Get(volume, n));
      assert Over(Get(volume, n), All(volParams, n), Get(secrets, n));
    }
  }

  /** Every key of a merged configuration is the normal form of some key. */
  lemma {:induction false} MergedKeysAreNormal(config: DriverConfig, driverSecrets: Params, volSecrets: Params, volParams: Params, r: Params, n: string)
    requires Merged(config, driverSecrets, volSecrets, volParams, r) && n in r
    ensures n == "driver" || Normalize(n) == n
  {
    NormalizeTwice("pool_endpoint");
    NormalizeTwice("storage_path");
    if k: string :| Normalize(k) == n {
      NormalizeTwice(k);
    } else {
      NoValues(driverSecrets, n);
      NoValues(volParams, n);
      NoValues(volSecrets, n);
    }
  }

  lemma {:induction false} NoValues(layer: Params, n: string)
    requires forall k :: Normalize(k) != n
    ensures All(layer, n) == {}
  {
  }

  /** The layer has v for some key that means n. */
  ghost predicate Sets(layer: Params, n: string, v: string) {
    v != "" && exists k | k in layer :: Means(k, n) && layer[k] == v
  }

  lemma {:induction false} AllIsSet(layer: Params, n: string, v: string)
    requires IsPlain(n)
    ensures v in All(layer, n) <==> Sets(layer, n, v)
  {
    forall k | k in layer
      ensures Normalize(k) == n <==> Means(k, n)
    {
      NormalizeIff(k, n);
    }
  }

  lemma {:induction false} AllIfSet(layer: Params, n: string)
    requires IsPlain(n)
    ensures All(layer, n) != {} <==> exists v: string :: Sets(layer, n, v)
    ensures forall v: string :: v in All(layer, n) <==> Sets(layer, n, v)
  {
    forall v: string
      ensures v in All(layer, n) <==> Sets(layer, n, v)
    {
      AllIsSet(layer, n, v);
    }
    if v :| v in All(layer, n) {
      assert Sets(layer, n, v);
    }
  }

  /** A merged configuration has for a name: the driver's own setting; else what some key with that
      meaning has in the driver's secrets; else in the volume's parameters; else in its secrets; else
      nothing. No other keys are in it. */
  lemma {:induction false} MergeLaw(config: DriverConfig, driverSecrets: Params, volSecrets: Params, volParams: Params, r: Params, n: string)
    requires Merged(config, driverSecrets, volSecrets, volParams, r)
    ensures n in r ==> IsPlain(n)
    ensures n == "storagepath" && config.storagePath != "" ==> Get(r, n) == Some(config.storagePath)
    ensures n == "poolendpoint" && config.poolServiceEndpoint != "" ==> Get(r, n) == Some(config.poolServiceEndpoint)
    ensures IsPlain(n) && (n == "storagepath" ==> config.storagePath == "") && (n == "poolendpoint" ==> config.poolServiceEndpoint == "") ==>
              if exists v: string :: Sets(driverSecrets, n, v) then n in r && Sets(driverSecrets, n, r[n])
              else if exists v: string :: Sets(volParams, n, v) then n in r && Sets(volParams, n, r[n])
              else if exists v: string :: Sets(volSecrets, n, v) then n in r && Sets(volSecrets, n, r[n])
              else n !in r
  {
    StorageKeyIs();
    PoolKeyIs();
    if n in r {
      MergedKeyIsPlain(config, driverSecrets, volSecrets, volParams, r, n);
    }
    if IsPlain(n) {
      AllIfSet(driverSecrets, n);
      AllIfSet(volParams, n);
      AllIfSet(volSecrets, n);
    }
  }

  lemma {:induction false} MergedKeyIsPlain(config: DriverConfig, driverSecrets: Params, volSecrets: Params, volParams: Params, r: Params, n: string)
    requires Merged(config, driverSecrets, volSecrets, volParams, r) && n in r
    ensures IsPlain(n)
  {
    NormalizeIff("pool_endpoint", n);
    NormalizeIff("storage_path", n);
    if k: string :| Normalize(k) == n {
      NormalizeIff(k, n);
    } else {
      NoValues(driverSecrets, n);
      NoValues(volParams, n);
      NoValues(volSecrets, n);
    }
  }
}
