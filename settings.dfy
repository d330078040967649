/**
 * `src/lib/api/settings.ts`: the key/value `settings` table. The rows the
 * select returns (or its error) are an input; the cache wrapper is left
 * out, so every read sees the current table.
 */
module Settings {
  import opened Wrappers
  import opened JsValues
  import opened Strings

  /** A `settings` row, as far as the reads use it. */
  datatype SettingRow = SettingRow(key: string, value: string)

  /** The map the rows describe: each key bound to the value of its last row. */
  function SettingsOf(rows: seq<SettingRow>): (m: map<string, string>)
    ensures forall k :: k in m <==> exists i :: 0 <= i < |rows| && rows[i].key == k
    decreases |rows|
  {
    if rows == [] then map[]
    else
      var init := rows[..|rows| - 1];
      assert forall i :: 0 <= i < |rows| - 1 ==> rows[i] == init[i];
      SettingsOf(init)[rows[|rows| - 1].key := rows[|rows| - 1].value]
  }

  /** A key's value comes from a row with that key and no later row has it. */
  lemma {:induction false} LastRowWins(rows: seq<SettingRow>, k: string)
    requires k in SettingsOf(rows)
    ensures exists i :: 0 <= i < |rows| && rows[i] == SettingRow(k, SettingsOf(rows)[k])
                        && forall j :: i < j < |rows| ==> rows[j].key != k
    decreases |rows|
  {
    var n := |rows| - 1;
    var init := rows[..n];
    if rows[n].key == k {
      assert rows[n] == SettingRow(k, SettingsOf(rows)[k]);
    } else {
      LastRowWins(init, k);
      var i :| 0 <= i < |init| && init[i] == SettingRow(k, SettingsOf(init)[k])
               && forall j :: i < j < |init| ==> init[j].key != k;
      assert rows[i] == init[i];
      assert forall j :: i < j < |rows| ==> rows[j].key != k by {
        forall j | i < j < |rows| ensures rows[j].key != k {
          if j < n { assert rows[j] == init[j]; }
        }
      }
    }
  }

  /**
   * `getSettings()`: the rows folded into a map with a `forEach`, a later
   * row overwriting an earlier one; a failed select gives `{}`.
   */
  method GetSettings(data: Result<seq<SettingRow>, string>) returns (settingsMap: map<string, string>)
    ensures data.Err? ==> settingsMap == map[]
    ensures data.Ok? ==> settingsMap == SettingsOf(data.value)
  {
    if data.Err? {
      return map[];
    }
    var rows := data.value;
    settingsMap := map[];
    for i := 0 to |rows|
      invariant settingsMap == SettingsOf(rows[..i])
    {
      assert rows[..i + 1][..i] == rows[..i];
      settingsMap := settingsMap[rows[i].key := rows[i].value];
    }
    assert rows[..|rows|] == rows;
  }

  /** The default `getSetting` is given, whose type picks the conversion. */
  datatype Setting = Text(s: string) | Numeric(n: Number) | Flag(b: bool)

  /** `getSetting(key, defaultValue)` over the map `getSettings` returned. */
  function GetSetting(settings: map<string, string>, key: string, defaultValue: Setting): (r: Setting)
    ensures key !in settings ==> r == defaultValue
    ensures key in settings && defaultValue.Numeric? ==>
      r == if StringToNumber(settings[key]).NaN? then defaultValue else Numeric(StringToNumber(settings[key]))
    ensures key in settings && defaultValue.Flag? ==> (r == Flag(true) <==> settings[key] == "true")
    ensures key in settings && defaultValue.Text? ==> r == Text(settings[key])
    ensures r.Numeric? == defaultValue.Numeric? && r.Flag? == defaultValue.Flag?
  {
    if key !in settings then defaultValue
    else
      var value := settings[key];
      match defaultValue
      case Numeric(_) =>
        var num := StringToNumber(value);
        if num.NaN? then defaultValue else Numeric(num)
      case Flag(_) => Flag(value == "true")
      case Text(_) => Text(value)
  }

  /** A boolean read is exact: `"TRUE"` and `"1"` read as false whatever the default. */
  lemma FlagIsExact(settings: map<string, string>, key: string, d: bool)
    requires key in settings && settings[key] in {"TRUE", "True", "1", "yes"}
    ensures GetSetting(settings, key, Flag(d)) == Flag(false)
  {
  }

  /** A numeric read of a stored natural gives that number. */
  lemma NumericOfNat(settings: map<string, string>, key: string, n: nat, d: Number)
    ensures GetSetting(settings[key := NatToString(n)], key, Numeric(d)) == Numeric(Finite(n as real))
  {
    NumberOfNatString(n);
  }

  /** Text that is not a number reads as the default; an empty value reads as 0. */
  lemma NumericFallback(settings: map<string, string>, key: string, d: Number)
    ensures GetSetting(settings[key := "abc"], key, Numeric(d)) == Numeric(d)
    ensures GetSetting(settings[key := ""], key, Numeric(d)) == Numeric(Finite(0.0))
  {
    NotANumber();
  }

  lemma NotANumber()
    ensures StringToNumber("abc") == NaN
  {
    TrimOfTrimmed("abc");
    assert Trim("abc") == "abc";
    assert IndexOfChar("abc", '.') == None;
    assert !AllDigits("abc") by { assert !IsDigit("abc"[0]); }
  }

  /** What `updateSetting` does: the upserted table, or the error it throws. */
  datatype Update = Stored(settings: map<string, string>) | Threw(message: string)

  /**
   * `updateSetting(key, value)`: the upsert replaces or adds the row; an
   * upsert error is thrown, never returned.
   */
  function UpdateSetting(settings: map<string, string>, key: string, value: string, upsertError: Option<string>): (u: Update)
    ensures upsertError.None? <==> u.Stored?
    ensures u.Stored? ==> u.settings.Keys == settings.Keys + {key} && u.settings[key] == value
                          && forall k :: k in settings && k != key ==> u.settings[k] == settings[k]
    ensures u.Threw? ==> u.message == "Failed to update setting " + key + ": " + upsertError.value
  {
    if upsertError.Some? then Threw("Failed to update setting " + key + ": " + upsertError.value)
    else Stored(settings[key := value])
  }

  /** A value written is the value read back as text. */
  lemma UpdateThenRead(settings: map<string, string>, key: string, value: string, fallback: string)
    ensures var u := UpdateSetting(settings, key, value, None);
      GetSetting(u.settings, key, Text(fallback)) == Text(value)
  {
  }
}
