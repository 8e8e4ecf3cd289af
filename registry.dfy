/** The registry of tracked repositories and its parsing into `Repository`
    records, with the per-field defaults and the two-level fallback for the
    update-branch prefix. */
module Registry {
  import opened Wrappers

  /** Used when neither the repository nor the `settings` section names a branch prefix. */
  const DefaultBranchPrefix: string := "cruft/template-update"

  /** One tracked repository, after defaults have been applied. */
  datatype Repository = Repository(
    name: string,
    template: string,
    github: string,             // owner/name on GitHub
    localPath: Option<string>,  // a working copy to use instead of cloning
    autoUpdate: bool,
    branchPrefix: string)

  /** One record of the `repositories` mapping, as written: every field may be missing. */
  datatype RepoConfig = RepoConfig(
    template: Option<string>,
    github: Option<string>,
    localPath: Option<string>,
    autoUpdate: Option<bool>,
    branchPrefix: Option<string>)

  /** A key of the `repositories` mapping with its record. */
  datatype Entry = Entry(name: string, config: RepoConfig)

  /** The `settings` section; a missing section has every field missing. */
  datatype Settings = Settings(
    branchPrefix: Option<string>,
    prBodyTemplate: Option<string>,
    prTitleTemplate: Option<string>)

  /** The loaded registry document: the `repositories` mapping in its
      insertion order (absent when the document has no such key) and the
      `settings` section. */
  datatype Config = Config(repositories: Option<seq<Entry>>, settings: Settings)

  /** The mapping's entries; a missing mapping counts as an empty one. */
  function Entries(config: Config): seq<Entry> {
    config.repositories.GetOr([])
  }

  /** `r` is what parsing makes of entry `e` under `settings`: the key becomes
      the name, a missing template or GitHub slug becomes "", a missing local
      path stays absent, a missing `auto_update` is true, and the branch
      prefix comes from the entry, else from `settings`, else the default. */
  predicate ParsedFrom(r: Repository, e: Entry, settings: Settings) {
    && r.name == e.name
    && r.template == e.config.template.GetOr("")
    && r.github == e.config.github.GetOr("")
    && r.localPath == e.config.localPath
    && r.autoUpdate == e.config.autoUpdate.GetOr(true)
    && r.branchPrefix == e.config.branchPrefix.GetOr(settings.branchPrefix.GetOr(DefaultBranchPrefix))
  }

  /** Builds one `Repository` per entry of the `repositories` mapping, in
      mapping order. */
  method ParseRepositories(config: Config) returns (repos: seq<Repository>)
    ensures config.repositories.None? ==> repos == []
    ensures |repos| == |Entries(config)|
    ensures forall i :: 0 <= i < |repos| ==> ParsedFrom(repos[i], Entries(config)[i], config.settings)
  {
    repos := [];
    var entries := config.repositories.GetOr([]);
    for i := 0 to |entries|
      invariant |repos| == i
      invariant forall k :: 0 <= k < i ==> ParsedFrom(repos[k], entries[k], config.settings)
    {
      var name, cfg := entries[i].name, entries[i].config;
      repos := repos + [Repository(
        name := name,
        template := cfg.template.GetOr(""),
        github := cfg.github.GetOr(""),
        localPath := cfg.localPath,
        autoUpdate := cfg.autoUpdate.GetOr(true),
        branchPrefix := cfg.branchPrefix.GetOr(config.settings.branchPrefix.GetOr(DefaultBranchPrefix)))];
    }
  }
}
