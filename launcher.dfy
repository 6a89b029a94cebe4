/**
 * The launcher: reads the installer's `KEY=value` configuration file and
 * works out which packages to refresh before the player window opens.
 */
module Launcher {
  import opened Wrappers
  import opened Text

  /** One `key=value` setting. */
  datatype Entry = Entry(key: string, value: string)

  /** The settings `load_config` starts from. */
  const Defaults: map<string, string> := map["YTDLP_INSTALLED" := "false"]

  /**
   * One line of the file: stripped; blank lines, `#` comments and lines
   * without `=` are ignored; otherwise split at the first `=`, with both
   * halves stripped.
   */
  function ParseLine(line: string): (r: Option<Entry>)
    ensures var t := Strip(line); r.None? <==> t == [] || t[0] == '#' || '=' !in t
    ensures r.Some? ==> '=' !in r.value.key
    ensures r.Some? ==> Trimmed(r.value.key) && Trimmed(r.value.value)
  {
    SplitSetting(Strip(line))
  }

  /** The setting a stripped line holds. */
  function SplitSetting(t: string): (r: Option<Entry>)
    ensures r.None? <==> t == [] || t[0] == '#' || '=' !in t
    ensures r.Some? ==> '=' !in r.value.key
    ensures r.Some? ==> Trimmed(r.value.key) && Trimmed(r.value.value)
  {
    if t == [] || t[0] == '#' || '=' !in t then None
    else
      var i := IndexOf(t, '=');
      StripKeepsCharacters(t[..i]);
      Some(Entry(Strip(t[..i]), Strip(t[i + 1..])))
  }

  /**
   * A setting written as `key=value`, with a key that starts no comment, reads
   * back as itself; the key may be empty, as in a line `=value`.
   */
  lemma ParseLineRoundTrip(key: string, value: string)
    requires (key == [] || key[0] != '#') && '=' !in key
    requires Trimmed(key) && Trimmed(value)
    ensures ParseLine(key + "=" + value) == Some(Entry(key, value))
  {
    var line := key + "=" + value;
    assert ParseLine(line) == SplitSetting(line) by {
      SettingLineIsTrimmed(key, value);
      StripOfTrimmed(line);
    }
    SplitSettingOfSetting(key, value);
  }

  lemma SplitSettingOfSetting(key: string, value: string)
    requires (key == [] || key[0] != '#') && '=' !in key
    requires Trimmed(key) && Trimmed(value)
    ensures SplitSetting(key + "=" + value) == Some(Entry(key, value))
  {
    SplitAtFirstEquals(key, value);
    assert Strip(key) == key by {
      StripOfTrimmed(key);
    }
    assert Strip(value) == value by {
      StripOfTrimmed(value);
    }
  }

  lemma SplitAtFirstEquals(key: string, value: string)
    requires (key == [] || key[0] != '#') && '=' !in key
    ensures SplitSetting(key + "=" + value) == Some(Entry(Strip(key), Strip(value)))
  {
    var line := key + "=" + value;
    assert line == key + ['='] + value;
    assert line != [] && line[0] != '#' && '=' in line by {
      assert line[|key|] == '=';
      assert line[0] == if key == [] then '=' else key[0];
    }
    var i := IndexOf(line, '=');
    assert i == |key| && line[..i] == key && line[i + 1..] == value by {
      IndexOfAfterPrefix(key, '=', value);
    }
  }

  lemma SettingLineIsTrimmed(key: string, value: string)
    requires Trimmed(key) && Trimmed(value)
    ensures Trimmed(key + "=" + value)
  {
    var line := key + "=" + value;
    assert line[0] == if key == [] then '=' else key[0];
    assert line[|line| - 1] == if value == [] then '=' else value[|value| - 1];
  }

  /** Every line of the file, parsed, in order. */
  function Parsed(lines: seq<string>): (r: seq<Option<Entry>>)
    ensures |r| == |lines|
  {
    if lines == [] then [] else Parsed(lines[..|lines| - 1]) + [ParseLine(lines[|lines| - 1])]
  }

  lemma ParsedStep(lines: seq<string>, k: nat)
    requires k < |lines|
    ensures Parsed(lines[..k + 1]) == Parsed(lines[..k]) + [ParseLine(lines[k])]
  {
    assert lines[..k + 1][..k] == lines[..k];
  }

  lemma ApplyStep(config: map<string, string>, parsed: seq<Option<Entry>>, p: Option<Entry>)
    ensures var before := Apply(config, parsed);
      Apply(config, parsed + [p]) == match p case None => before case Some(e) => before[e.key := e.value]
  {
    assert (parsed + [p])[..|parsed|] == parsed;
  }

  /** Reading one more line applies its setting, if it has one, to the settings so far. */
  lemma ConfigureStep(lines: seq<string>, k: nat)
    requires k < |lines|
    ensures var before := Configure(lines[..k]);
      Configure(lines[..k + 1]) == match ParseLine(lines[k]) case None => before case Some(e) => before[e.key := e.value]
  {
    ParsedStep(lines, k);
    ApplyStep(Defaults, Parsed(lines[..k]), ParseLine(lines[k]));
  }

  /** The settings `config` after the parsed lines `parsed`, in order: each setting overrides any earlier value of its key. */
  function Apply(config: map<string, string>, parsed: seq<Option<Entry>>): map<string, string> {
    if parsed == [] then config
    else
      var before := Apply(config, parsed[..|parsed| - 1]);
      match parsed[|parsed| - 1]
      case None => before
      case Some(e) => before[e.key := e.value]
  }

  /** The settings after reading `lines`. */
  function Configure(lines: seq<string>): map<string, string> {
    Apply(Defaults, Parsed(lines))
  }

  /** `load_config()`: the defaults when the file is absent; otherwise the settings of the lines read before any read error. */
  function LoadedConfig(file: Option<seq<string>>): map<string, string> {
    match file
    case None => Defaults
    case Some(lines) => Configure(lines)
  }

  /** Whether a parsed line sets `key`. */
  predicate Sets(p: Option<Entry>, key: string) {
    p.Some? && p.value.key == key
  }

  /** A key's value is the one its last setting gives it. */
  lemma {:induction false} LastSettingWins(config: map<string, string>, parsed: seq<Option<Entry>>, j: nat)
    requires j < |parsed| && parsed[j].Some?
    requires forall j' :: j < j' < |parsed| ==> !Sets(parsed[j'], parsed[j].value.key)
    ensures var e := parsed[j].value; e.key in Apply(config, parsed) && Apply(config, parsed)[e.key] == e.value
  {
    var last := |parsed| - 1;
    if j < last {
      var prefix := parsed[..last];
      assert forall j' :: j < j' < |prefix| ==> prefix[j'] == parsed[j'];
      LastSettingWins(config, prefix, j);
    }
  }

  /** A key that no line sets keeps its starting value, and stays absent when it has none. */
  lemma {:induction false} UnsetKeyKeepsValue(config: map<string, string>, parsed: seq<Option<Entry>>, key: string)
    requires forall j :: 0 <= j < |parsed| ==> !Sets(parsed[j], key)
    ensures key in Apply(config, parsed) <==> key in config
    ensures key in config ==> Apply(config, parsed)[key] == config[key]
  {
    if parsed != [] {
      var prefix := parsed[..|parsed| - 1];
      assert forall j :: 0 <= j < |prefix| ==> prefix[j] == parsed[j];
      UnsetKeyKeepsValue(config, prefix, key);
    }
  }

  /** The keys of the settings: the starting ones and those some line sets. */
  lemma {:induction false} ConfiguredKeys(config: map<string, string>, parsed: seq<Option<Entry>>, key: string)
    ensures key in Apply(config, parsed) <==> key in config || exists j :: 0 <= j < |parsed| && Sets(parsed[j], key)
  {
    if parsed != [] {
      var last := |parsed| - 1;
      var prefix := parsed[..last];
      ConfiguredKeys(config, prefix, key);
      assert forall j :: 0 <= j < |prefix| ==> prefix[j] == parsed[j];
      if exists j :: 0 <= j < |parsed| && Sets(parsed[j], key) {
        var j :| 0 <= j < |parsed| && Sets(parsed[j], key);
        if j < last {
          assert Sets(prefix[j], key);
        }
      }
    }
  }

  /** `load_config()`, reading the file line by line; `file` is `None` when no configuration file exists. */
  method LoadConfig(file: Option<seq<string>>) returns (config: map<string, string>)
    ensures config == LoadedConfig(file)
  {
    config := map["YTDLP_INSTALLED" := "false"];
    if file.Some? {
      var lines := file.value;
      var k := 0;
      while k < |lines|
        invariant 0 <= k <= |lines|
        invariant config == Configure(lines[..k])
      {
        var setting := ParseLine(lines[k]);
        ConfigureStep(lines, k);
        if setting.Some? {
          config := config[setting.value.key := setting.value.value];
        }
        k := k + 1;
      }
      assert lines[..k] == lines;
    }
  }

  /** The packages `check_dependencies` upgrades for the settings `config`. */
  function Dependencies(config: map<string, string>): (r: seq<string>)
    ensures 2 <= |r| <= 3 && r[..2] == ["pygame", "mutagen"]
    ensures |r| == 3 ==> r[2] == "yt-dlp"
    ensures "yt-dlp" in r <==> "YTDLP_INSTALLED" in config && Lower(config["YTDLP_INSTALLED"]) == "true"
  {
    var installed := if "YTDLP_INSTALLED" in config then config["YTDLP_INSTALLED"] else "false";
    ["pygame", "mutagen"] + (if Lower(installed) == "true" then ["yt-dlp"] else [])
  }

  /** `check_dependencies()` up to the `pip` call: the package list built from the loaded settings. */
  method CheckDependencies(file: Option<seq<string>>) returns (dependencies: seq<string>)
    ensures dependencies == Dependencies(LoadedConfig(file))
  {
    var config := LoadConfig(file);
    dependencies := ["pygame", "mutagen"];
    var installed := if "YTDLP_INSTALLED" in config then config["YTDLP_INSTALLED"] else "false";
    if Lower(installed) == "true" {
      dependencies := dependencies + ["yt-dlp"];
    }
  }

  /** Without a configuration file only the two mandatory packages are upgraded. */
  lemma NoConfigMeansNoDownloader()
    ensures Dependencies(LoadedConfig(None)) == ["pygame", "mutagen"]
  {
    assert Lower("false")[0] == 'f';
  }

  /**
   * `yt-dlp` is upgraded exactly when the last `YTDLP_INSTALLED` setting of
   * the file (`Configure(lines) == Apply(Defaults, Parsed(lines))`) says
   * `true` in any letter case.
   */
  lemma DownloaderFollowsLastSetting(parsed: seq<Option<Entry>>, j: nat)
    requires j < |parsed| && Sets(parsed[j], "YTDLP_INSTALLED")
    requires forall j' :: j < j' < |parsed| ==> !Sets(parsed[j'], "YTDLP_INSTALLED")
    ensures "yt-dlp" in Dependencies(Apply(Defaults, parsed)) <==> Lower(parsed[j].value.value) == "true"
  {
    LastSettingWins(Defaults, parsed, j);
  }
}
