/** The process-wide settings record that every validator reads, and its
    built-in defaults. Loading and saving the settings file is not modelled. */
module Config {

  datatype GeneralConfig = GeneralConfig(
    defaultEmoji: string,
    autoPush: bool,
    confirmBeforePush: bool,
    debug: bool)

  /** Commit-message rules. `enforceConventional` is read by the prompt
      layer but is not declared by the source's record; the model declares
      it so that the validators have it. Lengths are `usize` byte counts. */
  datatype CommitConfig = CommitConfig(
    maxTitleLength: nat,
    maxBodyLength: nat,
    autoCapitalizeTitle: bool,
    enforceConventional: bool)

  datatype HooksConfig = HooksConfig(
    runPreCommit: bool,
    autoFixLint: bool,
    retryOnFailure: bool)

  datatype Config = Config(general: GeneralConfig, commit: CommitConfig, hooks: HooksConfig)

  /** The sparkles glyph, the default emoji. */
  const Sparkles: string := "\U{2728}"

  /** `Default for Config`. The source gives no default for
      `enforceConventional`; the model switches it on. */
  function DefaultConfig(): (c: Config)
    ensures c.general == GeneralConfig(Sparkles, false, true, false)
    ensures c.commit.maxTitleLength == 50 && c.commit.maxBodyLength == 72
    ensures c.commit.autoCapitalizeTitle
    ensures c.hooks.runPreCommit && c.hooks.autoFixLint && c.hooks.retryOnFailure
  {
    Config(
      GeneralConfig(defaultEmoji := Sparkles, autoPush := false, confirmBeforePush := true, debug := false),
      CommitConfig(maxTitleLength := 50, maxBodyLength := 72, autoCapitalizeTitle := true, enforceConventional := true),
      HooksConfig(runPreCommit := true, autoFixLint := true, retryOnFailure := true))
  }
}
