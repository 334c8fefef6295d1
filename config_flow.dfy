/** The integration's setup form (`config_flow.py`): the schema's defaults
    and ranges, the language choices, `_validate_config`, and what the
    user step answers. Voluptuous's coercion of form text to numbers is
    outside the model: the form's fields arrive already typed. */
module ConfigFlow {
  import opened Common

  const DOMAIN: string := "vocabulary_learner"
  const DEFAULT_NAME: string := "Vocabulary Learner"
  const DEFAULT_WORDS_PER_DAY: int := 10
  const DEFAULT_NOTIFICATION_FREQUENCY: int := 60
  const DEFAULT_TARGET_LANGUAGE: string := "de"
  const DEFAULT_ENABLE_API: bool := true
  const DEFAULT_QUIET_HOURS_START: string := "22:00"
  const DEFAULT_QUIET_HOURS_END: string := "08:00"

  /** The codes offered as target languages (the values of the language
      table). */
  const LANGUAGE_CODES: set<string> := {
    "de", "en", "es", "fr", "it", "pt", "ru", "ja", "zh", "ko", "ar", "nl", "pl",
    "tr", "sv", "no", "da", "fi", "el", "he", "hi", "cs", "ro", "hu", "th", "vi"
  }

  /** The form as submitted: a field the user left out is `None`. */
  datatype FormInput = FormInput(
    name: Option<string>,
    vocabFile: Option<string>,
    wordsPerDay: Option<int>,
    notificationFrequency: Option<int>,
    targetLanguage: Option<string>,
    enableApi: Option<bool>,
    notificationEntity: Option<string>,
    quietHoursStart: Option<string>,
    quietHoursEnd: Option<string>)

  /** The configuration the schema lets through, with its defaults filled
      in. The vocabulary file and the notification entity have no default. */
  datatype Config = Config(
    name: string,
    vocabFile: Option<string>,
    wordsPerDay: int,
    notificationFrequency: int,
    targetLanguage: string,
    enableApi: bool,
    notificationEntity: Option<string>,
    quietHoursStart: string,
    quietHoursEnd: string)

  predicate InRange(x: int, lo: int, hi: int) {
    lo <= x <= hi
  }

  /** The user step's schema: defaults for the missing fields, then the
      ranges of words per day (1 to 100) and notification frequency (1 to
      1440 minutes) and the language choices. */
  function ApplySchema(input: FormInput): Result<Config> {
    var words := input.wordsPerDay.GetOr(DEFAULT_WORDS_PER_DAY);
    var frequency := input.notificationFrequency.GetOr(DEFAULT_NOTIFICATION_FREQUENCY);
    var language := input.targetLanguage.GetOr(DEFAULT_TARGET_LANGUAGE);
    if !InRange(words, 1, 100) then Err("words_per_day")
    else if !InRange(frequency, 1, 1440) then Err("notification_frequency")
    else if language !in LANGUAGE_CODES then Err("target_language")
    else Ok(Config(input.name.GetOr(DEFAULT_NAME), input.vocabFile, words, frequency, language,
                   input.enableApi.GetOr(DEFAULT_ENABLE_API), input.notificationEntity,
                   input.quietHoursStart.GetOr(DEFAULT_QUIET_HOURS_START),
                   input.quietHoursEnd.GetOr(DEFAULT_QUIET_HOURS_END)))
  }

  /** The schema accepts a form exactly when its values, or the defaults
      standing in for missing ones, are in range; what it accepts keeps
      every value the user gave. */
  lemma SchemaRule(input: FormInput)
    ensures ApplySchema(input).Ok? <==>
      && InRange(input.wordsPerDay.GetOr(10), 1, 100)
      && InRange(input.notificationFrequency.GetOr(60), 1, 1440)
      && input.targetLanguage.GetOr("de") in LANGUAGE_CODES
    ensures ApplySchema(input).Ok? ==>
      var c := ApplySchema(input).value;
      && (input.wordsPerDay.Some? ==> c.wordsPerDay == input.wordsPerDay.value)
      && (input.notificationFrequency.Some? ==> c.notificationFrequency == input.notificationFrequency.value)
      && (input.targetLanguage.Some? ==> c.targetLanguage == input.targetLanguage.value)
      && (input.enableApi.Some? ==> c.enableApi == input.enableApi.value)
      && c.vocabFile == input.vocabFile && c.notificationEntity == input.notificationEntity
  {
  }

  /** An empty form passes the schema with every default. */
  lemma DefaultsPass()
    ensures var empty := FormInput(None, None, None, None, None, None, None, None, None);
      ApplySchema(empty) == Ok(Config("Vocabulary Learner", None, 10, 60, "de", true, None, "22:00", "08:00"))
  {
  }

  const EMPTY_PATH_ERROR: string := "Invalid vocabulary file: Vocabulary file path cannot be empty"
  const NO_SOURCE_ERROR: string := "Either a vocabulary file must be provided or API must be enabled"

  /** `_validate_config`: `None` when it returns, the `InvalidVocabFile`
      message when it raises. It looks only at the vocabulary file and
      the API switch, and never at the file itself. */
  function ValidateConfig(vocabFile: Option<string>, enableApi: Option<bool>): (error: Option<string>)
    ensures error.Some? ==> error.value == EMPTY_PATH_ERROR || error.value == NO_SOURCE_ERROR
  {
    var givenPath := vocabFile.Some? && vocabFile.value != [];
    if givenPath && Strip(vocabFile.value) == [] then Some(EMPTY_PATH_ERROR)
    else if !givenPath && !enableApi.GetOr(DEFAULT_ENABLE_API) then Some(NO_SOURCE_ERROR)
    else None
  }

  /** A configuration is refused exactly when its path is white space only,
      or when it has no path and the API is switched off. */
  lemma ValidationRule(vocabFile: Option<string>, enableApi: Option<bool>)
    ensures var givenPath := vocabFile.Some? && vocabFile.value != [];
      && (ValidateConfig(vocabFile, enableApi) == Some(EMPTY_PATH_ERROR) <==> givenPath && IsBlank(vocabFile.value))
      && (ValidateConfig(vocabFile, enableApi) == Some(NO_SOURCE_ERROR) <==> !givenPath && enableApi == Some(false))
      && (ValidateConfig(vocabFile, enableApi).None? <==>
            (givenPath && !IsBlank(vocabFile.value)) || (!givenPath && enableApi != Some(false)))
  {
    if vocabFile.Some? {
      StripEmptyIffBlank(vocabFile.value);
    }
  }

  /** With neither a path nor the API switch, the API's default (on) makes
      the configuration valid; a path with any non-space character is
      valid whatever the switch says. */
  lemma ValidationDefaults(path: string, enableApi: Option<bool>)
    ensures ValidateConfig(None, None).None?
    ensures !IsBlank(path) ==> ValidateConfig(Some(path), enableApi).None?
  {
    if !IsBlank(path) {
      StripEmptyIffBlank(path);
      assert path != [] && Strip(path) != [];
    }
  }

  /** What the user step answers. */
  datatype StepResult =
    | ShowForm(error: Option<string>)
    | CreateEntry(title: string, data: Config)
    | AbortAlreadyConfigured

  function UniqueId(config: Config): string {
    DOMAIN + "_" + config.name
  }

  /** `async_step_user`, given the form as the schema let it through
      (`None` before the user submits) and the unique ids of the entries
      already set up. No input shows the empty form; a configuration the
      validator refuses shows the form with the `invalid_vocab_file`
      error; a second entry with the same unique id aborts; anything else
      creates the entry, titled with the configured name. */
  function StepUser(input: Option<Config>, configured: set<string>): (r: StepResult)
    ensures input.None? ==> r == ShowForm(None)
    ensures r.CreateEntry? ==> input == Some(r.data) && r.title == r.data.name
  {
    if input.None? then ShowForm(None)
    else
      var config := input.value;
      if ValidateConfig(config.vocabFile, Some(config.enableApi)).Some? then ShowForm(Some("invalid_vocab_file"))
      else if UniqueId(config) in configured then AbortAlreadyConfigured
      else CreateEntry(config.name, config)
  }

  /** An entry is created exactly for a valid configuration with an unused
      unique id; an invalid one always comes back with the form's error,
      even when an entry of that name exists. */
  lemma StepUserRule(config: Config, configured: set<string>)
    ensures StepUser(Some(config), configured).CreateEntry? <==>
      ValidateConfig(config.vocabFile, Some(config.enableApi)).None? && UniqueId(config) !in configured
    ensures StepUser(Some(config), configured) == ShowForm(Some("invalid_vocab_file")) <==>
      ValidateConfig(config.vocabFile, Some(config.enableApi)).Some?
    ensures StepUser(Some(config), configured) == AbortAlreadyConfigured <==>
      ValidateConfig(config.vocabFile, Some(config.enableApi)).None? && UniqueId(config) in configured
  {
  }
}
