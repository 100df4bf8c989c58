/** Validation of the summarisation configuration (as read from YAML): the
    configuration must be an object with six sections — directories, ai,
    tika, nonfunctionals, schema and prompt — each checked field by field.
    A validator collects error messages; `validateConfig` returns either the
    messages or the configuration itself.

    The validators are given arbitrary values: a section that is `null`
    passes the `typeof ... === 'object'` test and the field access after it
    throws a TypeError, which the model keeps as a `Throws` outcome. Only the
    first access to a value can throw; the later ones read it with `Field`. */
module SummariseConfig {
  import opened Wrappers
  import opened JsValues

  // ---------------------------------------------------------------------
  // validateNeeded

  /** `validateNeeded(s, name, type)`: a falsy value (0 and '' among them)
      is "not defined"; a value of another type is "not a string", whatever
      the expected type. */
  function ValidateNeeded(v: JsValue, name: string, ty: string): (errors: seq<string>)
    ensures errors == [] <==> Truthy(v) && TypeOf(v) == ty
    ensures |errors| <= 1
  {
    if !Truthy(v) then [name + " is not defined"]
    else if TypeOf(v) != ty then [name + " is not a string"]
    else []
  }

  /** The one message names the field and says what is wrong with it; a
      number field holding a string is reported as "not a string". */
  lemma ValidateNeededMessages(v: JsValue, name: string, ty: string)
    ensures !Truthy(v) ==> ValidateNeeded(v, name, ty) == [name + " is not defined"]
    ensures Truthy(v) && TypeOf(v) != ty ==> ValidateNeeded(v, name, ty) == [name + " is not a string"]
    ensures ValidateNeeded(Str("not-a-number"), "nonfunctionals.throttlingPerHour", "number") ==
            ["nonfunctionals.throttlingPerHour is not a string"]
  {
    assert "nonfunctionals.throttlingPerHour" + " is not a string" == "nonfunctionals.throttlingPerHour is not a string";
  }

  // ---------------------------------------------------------------------
  // The section validators

  function ValidateDirectory(d: JsValue): Outcome<seq<string>> {
    if TypeOf(d) != "object" then Returns(["Directories is not an object"])
    else
      var pdfs :- Member(d, "pdfs");
      var tika, text, html, summary := Field(d, "tika"), Field(d, "text"), Field(d, "html"), Field(d, "summary");
      Returns(ValidateNeeded(pdfs, "directories.pdfs", "string") + ValidateNeeded(tika, "directories.tika", "string")
              + ValidateNeeded(text, "directories.text", "string") + ValidateNeeded(html, "directories.html", "string")
              + ValidateNeeded(summary, "directories.summary", "string"))
  }

  function ValidateAi(a: JsValue): Outcome<seq<string>> {
    if TypeOf(a) != "object" then Returns(["ai is not an object"])
    else
      var ty :- Member(a, "type");
      var errors := ValidateNeeded(ty, "ai.type", "string");
      if errors == [] && ty != Str("openai") then Returns(["Invalid AI type. Currently only openai allowed"])
      else
        var url, model, token := Field(a, "url"), Field(a, "model"), Field(a, "token");
        Returns(errors + ValidateNeeded(url, "ai.url", "string") + ValidateNeeded(model, "ai.model", "string")
                + ValidateNeeded(token, "ai.token", "string"))
  }

  /** A missing retry policy is fine. */
  function ValidateRetry(r: JsValue): Outcome<seq<string>> {
    if r.Undef? then Returns([])
    else if TypeOf(r) != "object" then Returns(["retry is not an object"])
    else
      var initialInterval :- Member(r, "initialInterval");
      var maximumInterval, maximumAttempts := Field(r, "maximumInterval"), Field(r, "maximumAttempts");
      Returns(ValidateNeeded(initialInterval, "retry.initialInterval", "number")
              + ValidateNeeded(maximumInterval, "retry.maximumInterval", "number")
              + ValidateNeeded(maximumAttempts, "retry.maximumAttempts", "number"))
  }

  function ValidateNonfunctionals(n: JsValue): Outcome<seq<string>> {
    if TypeOf(n) != "object" then Returns(["Nonfunctionals is not an object"])
    else
      var throttlingPerHour :- Member(n, "throttlingPerHour");
      var concurrent, retry := Field(n, "concurrent"), Field(n, "retry");
      var retryErrors :- ValidateRetry(retry);
      Returns(ValidateNeeded(throttlingPerHour, "nonfunctionals.throttlingPerHour", "number")
              + ValidateNeeded(concurrent, "nonfunctionals.concurrent", "number") + retryErrors)
  }

  function ValidateSchema(s: JsValue): Outcome<seq<string>> {
    if TypeOf(s) != "object" then Returns(["Schema is not an object"])
    else
      var ty :- Member(s, "type");
      var errors := ValidateNeeded(ty, "schema.type", "string");
      if errors == [] && ty != Str("inline") then Returns(["Invalid schema type. Currently only inline allowed"])
      else
        var value := Field(s, "value");
        Returns(errors + (if value.Undef? then ["schema.value is not defined"] else []))
  }

  function ValidateTika(t: JsValue): Outcome<seq<string>> {
    if TypeOf(t) != "object" then Returns(["Tika is not an object"])
    else
      var ty :- Member(t, "type");
      var errors := ValidateNeeded(ty, "tika.type", "string");
      if errors == [] && ty != Str("jar") then Returns(["Invalid tika type. Currently only jar allowed"])
      else
        var jar := Field(t, "jar");
        Returns(errors + ValidateNeeded(jar, "tika.jar", "string"))
  }

  /** `validateConfig`: the errors of the six sections in order, or the
      configuration itself when there are none. */
  function ValidateConfig(c: JsValue): Outcome<ErrorsAnd<JsValue>> {
    if TypeOf(c) != "object" then Returns(Errors(["Config is not an object"]))
    else
      var directories :- Member(c, "directories");
      var directoryErrors :- ValidateDirectory(directories);
      var ai := Field(c, "ai");
      var aiErrors :- ValidateAi(ai);
      var tika := Field(c, "tika");
      var tikaErrors :- ValidateTika(tika);
      var nonfunctionals := Field(c, "nonfunctionals");
      var nonfunctionalErrors :- ValidateNonfunctionals(nonfunctionals);
      var schema := Field(c, "schema");
      var schemaErrors :- ValidateSchema(schema);
      var prompt := Field(c, "prompt");
      var errors := directoryErrors + aiErrors + tikaErrors + nonfunctionalErrors + schemaErrors
                    + ValidateNeeded(prompt, "prompt", "string");
      if |errors| > 0 then Returns(Errors(errors)) else Returns(Value(c))
  }

  // ---------------------------------------------------------------------
  // What a valid configuration is, stated field by field

  function Field(v: JsValue, key: string): JsValue {
    OptionalMember(v, key)
  }

  predicate NonEmptyString(v: JsValue) {
    v.Str? && v.s != ""
  }

  predicate NonZeroNumber(v: JsValue) {
    v.Num? && v.n != 0
  }

  predicate GoodDirectories(d: JsValue) {
    d.Obj? && NonEmptyString(Field(d, "pdfs")) && NonEmptyString(Field(d, "tika")) && NonEmptyString(Field(d, "text"))
    && NonEmptyString(Field(d, "html")) && NonEmptyString(Field(d, "summary"))
  }

  predicate GoodAi(a: JsValue) {
    a.Obj? && Field(a, "type") == Str("openai") && NonEmptyString(Field(a, "url")) && NonEmptyString(Field(a, "model"))
    && NonEmptyString(Field(a, "token"))
  }

  predicate GoodTika(t: JsValue) {
    t.Obj? && Field(t, "type") == Str("jar") && NonEmptyString(Field(t, "jar"))
  }

  predicate GoodRetry(r: JsValue) {
    r.Undef? ||
    (r.Obj? && NonZeroNumber(Field(r, "initialInterval")) && NonZeroNumber(Field(r, "maximumInterval"))
     && NonZeroNumber(Field(r, "maximumAttempts")))
  }

  predicate GoodNonfunctionals(n: JsValue) {
    n.Obj? && NonZeroNumber(Field(n, "throttlingPerHour")) && NonZeroNumber(Field(n, "concurrent"))
    && GoodRetry(Field(n, "retry"))
  }

  predicate GoodSchema(s: JsValue) {
    s.Obj? && Field(s, "type") == Str("inline") && !Field(s, "value").Undef?
  }

  predicate WellFormedConfig(c: JsValue) {
    c.Obj? && GoodDirectories(Field(c, "directories")) && GoodAi(Field(c, "ai")) && GoodTika(Field(c, "tika"))
    && GoodNonfunctionals(Field(c, "nonfunctionals")) && GoodSchema(Field(c, "schema"))
    && NonEmptyString(Field(c, "prompt"))
  }

  /** The validation throws exactly when the configuration, one of its
      sections or the retry policy is null. */
  predicate HasNullSection(c: JsValue) {
    c.Null? ||
    (c.Obj? &&
     (Field(c, "directories").Null? || Field(c, "ai").Null? || Field(c, "tika").Null?
      || Field(c, "nonfunctionals").Null? || Field(c, "schema").Null?
      || Field(Field(c, "nonfunctionals"), "retry").Null?))
  }

  lemma DirectoryMeaning(d: JsValue)
    ensures ValidateDirectory(d).Throws? <==> d.Null?
    ensures ValidateDirectory(d) == Returns([]) <==> GoodDirectories(d)
  {
  }

  lemma AiMeaning(a: JsValue)
    ensures ValidateAi(a).Throws? <==> a.Null?
    ensures ValidateAi(a) == Returns([]) <==> GoodAi(a)
  {
  }

  lemma TikaMeaning(t: JsValue)
    ensures ValidateTika(t).Throws? <==> t.Null?
    ensures ValidateTika(t) == Returns([]) <==> GoodTika(t)
  {
  }

  lemma RetryMeaning(r: JsValue)
    ensures ValidateRetry(r).Throws? <==> r.Null?
    ensures ValidateRetry(r) == Returns([]) <==> GoodRetry(r)
  {
  }

  lemma NonfunctionalsMeaning(n: JsValue)
    ensures ValidateNonfunctionals(n).Throws? <==> n.Null? || (n.Obj? && Field(n, "retry").Null?)
    ensures ValidateNonfunctionals(n) == Returns([]) <==> GoodNonfunctionals(n)
  {
    if TypeOf(n) == "object" && !n.Null? {
      RetryMeaning(Field(n, "retry"));
    }
  }

  lemma SchemaMeaning(s: JsValue)
    ensures ValidateSchema(s).Throws? <==> s.Null?
    ensures ValidateSchema(s) == Returns([]) <==> GoodSchema(s)
  {
  }

  /** A configuration is accepted, and returned as it is, exactly when it
      is well formed; it is rejected with at least one message otherwise,
      unless the validation throws, which it does exactly on a null section. */
  lemma ValidateConfigMeaning(c: JsValue)
    ensures ValidateConfig(c) == Returns(Value(c)) <==> WellFormedConfig(c)
    ensures ValidateConfig(c).Throws? <==> HasNullSection(c)
    ensures ValidateConfig(c).Returns? && ValidateConfig(c).value.Value? ==> ValidateConfig(c).value.value == c
    ensures ValidateConfig(c).Returns? && ValidateConfig(c).value.Errors? ==> |ValidateConfig(c).value.errors| > 0
  {
    if c.Obj? {
      ObjectConfigMeaning(c);
    } else if c.Arr? {
      ArrayConfigRejected(c);
    }
  }

  /** The same for an object, section by section. */
  lemma ObjectConfigMeaning(c: JsValue)
    requires c.Obj?
    ensures ValidateConfig(c) == Returns(Value(c)) <==> WellFormedConfig(c)
    ensures ValidateConfig(c).Throws? <==> HasNullSection(c)
    ensures ValidateConfig(c).Returns? && ValidateConfig(c).value.Errors? ==> |ValidateConfig(c).value.errors| > 0
  {
    DirectoryMeaning(Field(c, "directories"));
    AiMeaning(Field(c, "ai"));
    TikaMeaning(Field(c, "tika"));
    NonfunctionalsMeaning(Field(c, "nonfunctionals"));
    SchemaMeaning(Field(c, "schema"));
  }

  /** An array passes the `typeof` test but has none of the sections, so
      it is rejected with messages and does not throw. */
  lemma ArrayConfigRejected(c: JsValue)
    requires c.Arr?
    ensures ValidateConfig(c).Returns? && ValidateConfig(c).value.Errors? && |ValidateConfig(c).value.errors| > 0
  {
    ArrayAndStringMembers(c, "directories");
    ArrayAndStringMembers(c, "ai");
    ArrayAndStringMembers(c, "tika");
    ArrayAndStringMembers(c, "nonfunctionals");
    ArrayAndStringMembers(c, "schema");
    ArrayAndStringMembers(c, "prompt");
    DirectoryMeaning(Undef);
  }

  /** An unsupported AI type is the only message. */
  lemma UnsupportedAiTypeExample()
    ensures ValidateAi(Obj(map["type" := Str("notopenai"), "url" := Str("u"), "model" := Str("m"), "token" := Str("t")]))
            == Returns(["Invalid AI type. Currently only openai allowed"])
  {
    var ai := Obj(map["type" := Str("notopenai"), "url" := Str("u"), "model" := Str("m"), "token" := Str("t")]);
    assert Member(ai, "type") == Returns(Str("notopenai"));
  }

  /** A type of the wrong kind is reported, and checking goes on. */
  lemma WrongTikaTypeExample()
    ensures ValidateTika(Obj(map["type" := Num(5)])) == Returns(["tika.type is not a string", "tika.jar is not defined"])
  {
    var tika := Obj(map["type" := Num(5)]);
    assert Member(tika, "type") == Returns(Num(5)) && Field(tika, "jar") == Undef;
    assert ValidateNeeded(Num(5), "tika.type", "string") == ["tika.type is not a string"] by {
      assert "tika.type" + " is not a string" == "tika.type is not a string";
    }
    assert ValidateNeeded(Undef, "tika.jar", "string") == ["tika.jar is not defined"] by {
      assert "tika.jar" + " is not defined" == "tika.jar is not defined";
    }
    assert ValidateTika(tika).Returns? && ValidateTika(tika).value == ["tika.type is not a string", "tika.jar is not defined"];
  }

  /** A missing retry policy is fine. */
  lemma NonfunctionalsExamples()
    ensures ValidateNonfunctionals(Obj(map["throttlingPerHour" := Num(3600), "concurrent" := Num(10)])) == Returns([])
  {
    var ok := Obj(map["throttlingPerHour" := Num(3600), "concurrent" := Num(10)]);
    assert Member(ok, "throttlingPerHour") == Returns(Num(3600)) && Field(ok, "concurrent") == Num(10) && Field(ok, "retry") == Undef;
    assert ValidateNonfunctionals(ok).Returns? && ValidateNonfunctionals(ok).value == [];
  }

  /** A zero throttle counts as not defined. */
  lemma ZeroThrottleExample()
    ensures ValidateNonfunctionals(Obj(map["throttlingPerHour" := Num(0), "concurrent" := Num(10)]))
            == Returns(["nonfunctionals.throttlingPerHour is not defined"])
  {
    var zero := Obj(map["throttlingPerHour" := Num(0), "concurrent" := Num(10)]);
    assert Member(zero, "throttlingPerHour") == Returns(Num(0)) && Field(zero, "concurrent") == Num(10) && Field(zero, "retry") == Undef;
    assert "nonfunctionals.throttlingPerHour" + " is not defined" == "nonfunctionals.throttlingPerHour is not defined";
    assert ValidateNonfunctionals(zero).Returns? && ValidateNonfunctionals(zero).value == ["nonfunctionals.throttlingPerHour is not defined"];
  }

  /** A throttle that is a string is reported as not a string. */
  lemma StringThrottleExample()
    ensures ValidateNonfunctionals(Obj(map["throttlingPerHour" := Str("not-a-number"), "concurrent" := Num(10)]))
            == Returns(["nonfunctionals.throttlingPerHour is not a string"])
  {
    var text := Obj(map["throttlingPerHour" := Str("not-a-number"), "concurrent" := Num(10)]);
    assert Member(text, "throttlingPerHour") == Returns(Str("not-a-number")) && Field(text, "concurrent") == Num(10) && Field(text, "retry") == Undef;
    ValidateNeededMessages(Str("not-a-number"), "nonfunctionals.throttlingPerHour", "number");
    assert ValidateNonfunctionals(text).Returns? && ValidateNonfunctionals(text).value == ["nonfunctionals.throttlingPerHour is not a string"];
  }

  /** A null configuration throws; a string one is not an object. */
  lemma NonObjectConfigExample()
    ensures ValidateConfig(Null).Throws?
    ensures ValidateConfig(Str("config")) == Returns(Errors(["Config is not an object"]))
  {
  }
}
