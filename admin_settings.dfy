/**
 * The admin settings page turns the stored list of key/value settings into
 * a lookup table for the settings form.
 */
module AdminSettings {
  datatype Setting = Setting(key: string, value: string)

  function Keys(settings: seq<Setting>): set<string> {
    set s | s in settings :: s.key
  }

  /** The table after assigning the settings one after another. */
  function SettingsMap(settings: seq<Setting>): (m: map<string, string>)
    ensures m.Keys == Keys(settings)
    decreases |settings|
  {
    if settings == [] then map[]
    else
      var init := settings[..|settings| - 1];
      var last := settings[|settings| - 1];
      assert settings == init + [last];
      SettingsMap(init)[last.key := last.value]
  }

  /** The `reduce` assigning each setting into the accumulator in place. */
  method BuildSettingsMap(settings: seq<Setting>) returns (acc: map<string, string>)
    ensures acc == SettingsMap(settings)
  {
    acc := map[];
    var i := 0;
    while i < |settings|
      invariant 0 <= i <= |settings|
      invariant acc == SettingsMap(settings[..i])
    {
      assert settings[..i + 1][..i] == settings[..i];
      acc := acc[settings[i].key := settings[i].value];
      i := i + 1;
    }
    assert settings[..i] == settings;
  }

  /** No settings give an empty table. */
  lemma EmptySettings()
    ensures SettingsMap([]) == map[]
  {
  }

  /** For each key the table holds the value of the last setting with it. */
  lemma {:induction false} LastValueWins(settings: seq<Setting>, i: nat)
    requires i < |settings|
    requires forall j :: i < j < |settings| ==> settings[j].key != settings[i].key
    ensures SettingsMap(settings)[settings[i].key] == settings[i].value
    decreases |settings|
  {
    var init := settings[..|settings| - 1];
    if i < |settings| - 1 {
      forall j | i < j < |init| ensures init[j].key != init[i].key {
        assert init[j] == settings[j];
      }
      LastValueWins(init, i);
    }
  }

  predicate DistinctKeys(settings: seq<Setting>) {
    forall i, j :: 0 <= i < j < |settings| ==> settings[i].key != settings[j].key
  }

  /** With distinct keys no entry is overwritten: one entry per setting. */
  lemma {:induction false} DistinctKeysSize(settings: seq<Setting>)
    requires DistinctKeys(settings)
    ensures |SettingsMap(settings)| == |settings|
    decreases |settings|
  {
    if settings != [] {
      var init := settings[..|settings| - 1];
      var last := settings[|settings| - 1];
      assert DistinctKeys(init) by {
        forall i, j | 0 <= i < j < |init| ensures init[i].key != init[j].key {
          assert init[i] == settings[i] && init[j] == settings[j];
        }
      }
      DistinctKeysSize(init);
      forall s | s in init ensures s.key != last.key {
        var k :| 0 <= k < |init| && init[k] == s;
        assert init[k] == settings[k];
      }
      assert last.key !in Keys(init);
    }
  }

  /** A later setting overrides an earlier one with the same key. */
  lemma DuplicateKeyExample()
    ensures SettingsMap([Setting("theme", "light"), Setting("theme", "dark")]) == map["theme" := "dark"]
  {
    var s := [Setting("theme", "light"), Setting("theme", "dark")];
    assert s[..1] == [Setting("theme", "light")];
    assert s[..1][..0] == [];
  }
}
