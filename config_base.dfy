/**
 * The extended configuration: where its YAML file lives, and whether bank
 * data linking is usable, a question answered once and then remembered.
 * Reading the file, rendering the template and parsing the YAML are not
 * modelled; the parsed linking section is given to the constructor.
 */
module CustomConfigBase {
  import opened Wrappers
  import opened Strings

  const CONFIG_FOLDER_ENV := "LOCO_CONFIG_FOLDER"
  const DEFAULT_CONFIG_FOLDER := "config"
  const YAML_EXTENSION := ".yaml"

  /** The framework's run environments and the names they print as. */
  datatype Environment = Development | Production | Test | Any(name: string) {
    function Name(): (s: string)
      ensures Development? ==> s == "development"
      ensures Production? ==> s == "production"
      ensures Test? ==> s == "test"
      ensures Any? ==> s == name
    {
      match this
      case Development => "development"
      case Production => "production"
      case Test => "test"
      case Any(n) => n
    }
  }

  /** `get_config_folder`: the variable's value when it is set, else `config`. */
  function GetConfigFolder(envVar: Option<string>): (folder: string)
    ensures envVar.None? ==> folder == DEFAULT_CONFIG_FOLDER
    ensures envVar.Some? ==> folder == envVar.value
  {
    envVar.GetOr(DEFAULT_CONFIG_FOLDER)
  }

  /** The folder with exactly its own trailing slash, or one added. */
  function Slashed(folder: string): (dir: string)
    ensures EndsWith(dir, "/")
    ensures EndsWith(folder, "/") ==> dir == folder
    ensures !EndsWith(folder, "/") ==> dir == folder + "/"
  {
    if EndsWith(folder, "/") then folder else folder + "/"
  }

  /** The path `load_from_env` reads. */
  function ConfigPath(folder: string, fileName: string): (path: string)
  {
    Slashed(folder) + fileName + YAML_EXTENSION
  }

  /** The path is built by appending to the folder text: a slash if missing, the file name, `.yaml`. */
  method BuildPath(folder: string, fileName: string) returns (path: string)
    ensures path == ConfigPath(folder, fileName)
  {
    path := folder;
    if !EndsWith(path, "/") {
      path := path + ['/'];
    }
    path := path + fileName;
    path := path + YAML_EXTENSION;
  }

  /** Whatever the folder's ending, one slash separates its text from what follows. */
  lemma SlashedIsStripped(folder: string)
    ensures Slashed(folder) == StripSuffix(folder, "/") + "/"
  {
    if EndsWith(folder, "/") {
      var head := folder[..|folder| - 1];
      assert StripSuffix(folder, "/") == head;
      assert folder == head + folder[|folder| - 1..];
    }
  }

  /**
   * The path starts with the folder, ends with `<env>.yaml`, and between the
   * folder without its trailing slash and the file name stands one slash.
   */
  lemma PathShape(folder: string, fileName: string)
    ensures StartsWith(ConfigPath(folder, fileName), folder)
    ensures EndsWith(ConfigPath(folder, fileName), fileName + YAML_EXTENSION)
    ensures ConfigPath(folder, fileName) == StripSuffix(folder, "/") + "/" + fileName + YAML_EXTENSION
  {
    var dir, tail := Slashed(folder), fileName + YAML_EXTENSION;
    var path := ConfigPath(folder, fileName);
    assert path == dir + tail;
    assert path[..|folder|] == dir[..|folder|] == folder;
    assert path[|dir|..] == tail;
    SlashedIsStripped(folder);
  }

  /** The default location in development: `config/development.yaml`. */
  lemma DefaultDevelopmentPath()
    ensures ConfigPath(GetConfigFolder(None), Development.Name()) == "config/development.yaml"
  {
    assert !EndsWith(DEFAULT_CONFIG_FOLDER, "/");
    assert "config" + "/" + "development" + ".yaml" == "config/development.yaml";
  }

  datatype GoCardlessConfig = GoCardlessConfig(enabled: bool, secretId: string, secretKey: string)

  /** One bank-data provider; GoCardless is the only one. */
  datatype LinkingImplementation = GoCardless(config: GoCardlessConfig) {
    predicate IsEnabled() {
      config.enabled
    }
  }

  datatype BankDataLinkingConfig = BankDataLinkingConfig(enabled: bool, implementations: seq<LinkingImplementation>)

  /** Linking is usable when the section is present, switched on, and some provider is switched on. */
  predicate Configured(linking: Option<BankDataLinkingConfig>) {
    linking.Some? && linking.value.enabled &&
    exists i :: 0 <= i < |linking.value.implementations| && linking.value.implementations[i].IsEnabled()
  }

  class CustomConfigInner {
    const bankDataLinking: Option<BankDataLinkingConfig>
    /** The once-cell holding the answer after the first question. */
    var configuredCell: Option<bool>

    ghost predicate Valid()
      reads this
    {
      configuredCell.Some? ==> configuredCell.value == Configured(bankDataLinking)
    }

    constructor (bankDataLinking: Option<BankDataLinkingConfig>)
      ensures this.bankDataLinking == bankDataLinking && configuredCell.None? && Valid()
    {
      this.bankDataLinking := bankDataLinking;
      configuredCell := None;
    }

    /** The initialiser of the once-cell: early exits, then the first enabled provider wins. */
    method ComputeConfigured() returns (configured: bool)
      ensures configured == Configured(bankDataLinking)
    {
      if bankDataLinking.None? {
        return false;
      }
      var linking := bankDataLinking.value;
      if !linking.enabled || |linking.implementations| == 0 {
        return false;
      }
      var k := 0;
      while k < |linking.implementations|
        invariant 0 <= k <= |linking.implementations|
        invariant forall i :: 0 <= i < k ==> !linking.implementations[i].IsEnabled()
      {
        if linking.implementations[k].IsEnabled() {
          return true;
        }
        k := k + 1;
      }
      return false;
    }

    /** `is_bank_data_linking_configured`: computed on the first call, read from the cell afterwards. */
    method IsBankDataLinkingConfigured() returns (configured: bool)
      requires Valid()
      modifies this
      ensures Valid()
      ensures configured == Configured(bankDataLinking)
      ensures configuredCell == Some(configured)
      ensures old(configuredCell).Some? ==> configured == old(configuredCell).value
    {
      if configuredCell.Some? {
        return configuredCell.value;
      }
      configured := ComputeConfigured();
      configuredCell := Some(configured);
    }
  }

  /** Two questions in a row get the same answer. */
  method AskTwice(config: CustomConfigInner) returns (first: bool, second: bool)
    requires config.Valid()
    modifies config
    ensures first == second == Configured(config.bankDataLinking)
  {
    first := config.IsBankDataLinkingConfigured();
    second := config.IsBankDataLinkingConfigured();
  }

  /** The four situations the configuration distinguishes. */
  lemma ConfiguredCases(provider: GoCardlessConfig)
    requires provider.enabled
    ensures Configured(Some(BankDataLinkingConfig(true, [GoCardless(provider)])))
    ensures !Configured(Some(BankDataLinkingConfig(false, [GoCardless(provider)])))
    ensures !Configured(Some(BankDataLinkingConfig(true, [])))
    ensures !Configured(None)
  {
    assert [GoCardless(provider)][0].IsEnabled();
  }

  /** A switched-off provider is not enough, however many there are. */
  lemma DisabledProvidersOnly(linking: BankDataLinkingConfig)
    requires forall i :: 0 <= i < |linking.implementations| ==> !linking.implementations[i].IsEnabled()
    ensures !Configured(Some(linking))
  {
  }
}
