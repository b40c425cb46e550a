/**
 * The older custom configuration, which holds no settings of its own: it
 * locates its YAML file exactly as the extended configuration does.
 */
module CustomConfig {
  import opened Wrappers
  import opened Strings
  import opened CustomConfigBase

  /**
   * The path part of `load_from_env`: the configured folder (or `config`),
   * a slash unless the folder already ends in one, the environment's name
   * and `.yaml`.
   */
  method LoadPath(envVar: Option<string>, env: Environment) returns (path: string)
    ensures path == ConfigPath(GetConfigFolder(envVar), env.Name())
    ensures StartsWith(path, GetConfigFolder(envVar))
    ensures EndsWith(path, env.Name() + YAML_EXTENSION)
  {
    var folder := GetConfigFolder(envVar);
    path := BuildPath(folder, env.Name());
    PathShape(folder, env.Name());
  }

  /** A folder without a trailing slash gets exactly one; one with it is used as it is. */
  lemma FolderJoin(folder: string, fileName: string)
    ensures !EndsWith(folder, "/") ==> ConfigPath(folder, fileName) == folder + "/" + fileName + YAML_EXTENSION
    ensures EndsWith(folder, "/") ==> ConfigPath(folder, fileName) == folder + fileName + YAML_EXTENSION
  {
  }

  /** With the variable unset the file is looked up under `config/`. */
  lemma UnsetVariableUsesDefault(env: Environment)
    ensures ConfigPath(GetConfigFolder(None), env.Name()) == "config/" + env.Name() + YAML_EXTENSION
  {
    assert !EndsWith(DEFAULT_CONFIG_FOLDER, "/");
    assert DEFAULT_CONFIG_FOLDER + "/" == "config/";
  }
}
