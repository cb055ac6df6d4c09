/**
 The validator of model answers, the two-answer loop around it, and the outcome it leaves behind.
 */
module Classification {
  import opened JobModel
  import Retry
  import Coordination

  /** A JSON value, as far as the validator looks into it. */
  datatype Json = JNull | JBool(b: bool) | JString(s: string) | JList(items: seq<Json>) | JOther

  type Payload = map<string, Json>

  datatype Problem =
    | MissingFields
    | IsHateSpeechMustBeBool
    | CategoriesMustBeStringList
    | UnknownCategories
    | NonHateMustUseOnlyUnclassified
    | HateMustHaveCategory
    | HateMustNotUseUnclassified
    | OtherMustBeExclusive
    | NoTargetConflictsWithTarget
    | NoTargetRequiresNullTarget
    | SimilarCasesMustBeList
    | DefinitionDocsMustBeList
    | ReasoningMustBeKorean

  const REQUIRED_OUTPUT_FIELDS := [
    "input_text", "is_hate_speech", "categories", "target_group", "hate_type", "reasoning",
    "similar_cases_used", "definition_docs_used"]

  function Get(p: Payload, field: string): Json {
    if field in p then p[field] else JNull
  }

  predicate IsStringList(v: Json) {
    v.JList? && forall x :: x in v.items ==> x.JString?
  }

  /** The categories an answer gives, nothing if they are not a list of strings. */
  function Categories(p: Payload): seq<string> {
    var v := Get(p, "categories");
    if IsStringList(v) then
      seq(|v.items|, i requires 0 <= i < |v.items| => var x := v.items[i]; if x.JString? then x.s else "")
    else []
  }

  predicate Korean(v: Json) {
    v.JString? && exists c :: c in v.s && '\U{AC00}' <= c <= '\U{D7A3}'
  }

  predicate ListOrAbsent(p: Payload, field: string) {
    field in p ==> p[field].JList?
  }

  /** What a valid answer is. */
  ghost predicate Accepts(p: Payload, allowed: seq<string>) {
    && (forall f :: f in REQUIRED_OUTPUT_FIELDS ==> f in p)
    && Get(p, "is_hate_speech").JBool?
    && IsStringList(Get(p, "categories"))
    && (forall c :: c in Categories(p) ==> c in allowed)
    && (!Get(p, "is_hate_speech").b ==> Categories(p) == ["unclassified"])
    && (Get(p, "is_hate_speech").b ==>
          && Categories(p) != [] && "unclassified" !in Categories(p)
          && ("other" in Categories(p) ==> |Categories(p)| == 1)
          && ("no_target" in Categories(p) ==>
                && (forall c :: c in Categories(p) ==> c == "no_target" || c == "profanity")
                && Get(p, "target_group").JNull?))
    && Get(p, "similar_cases_used").JList?
    && Get(p, "definition_docs_used").JList?
    && Korean(Get(p, "reasoning"))
  }

  /** The categories as given: one string per entry, when every entry is one. */
  lemma CategoriesAreTheList(p: Payload)
    requires Get(p, "categories").JList? && forall x :: x in Get(p, "categories").items ==> x.JString?
    ensures var v, c := Get(p, "categories").items, Categories(p);
            |c| == |v| && forall i :: 0 <= i < |v| ==> v[i] == JString(c[i])
  {
  }

  /** What makes the categories of an answer acceptable, in three cases. */
  ghost predicate ProperCategories(c: seq<string>, hate: bool, target: Json) {
    || (!hate && c == ["unclassified"])
    || (hate && c == ["other"])
    || (&& hate && c != [] && "other" !in c && "unclassified" !in c
        && ("no_target" !in c || (target == JNull && forall x :: x in c ==> x == "no_target" || x == "profanity")))
  }

  const REQUIRED := {
    "input_text", "is_hate_speech", "categories", "target_group", "hate_type", "reasoning",
    "similar_cases_used", "definition_docs_used"}

  /**
   An answer is accepted exactly when it has all eight fields, its flag is a boolean, its three lists are lists, its
   reasoning has a Korean syllable, and its categories are allowed strings in one of three cases.
   */
  lemma AcceptsExactlyWhen(p: Payload, allowed: seq<string>)
    ensures Accepts(p, allowed) <==>
              && REQUIRED <= p.Keys
              && (p["is_hate_speech"] == JBool(true) || p["is_hate_speech"] == JBool(false))
              && p["categories"].JList? && p["similar_cases_used"].JList? && p["definition_docs_used"].JList?
              && p["reasoning"].JString? && (exists i :: 0 <= i < |p["reasoning"].s| && Hangul(p["reasoning"].s, i))
              && (forall x :: x in p["categories"].items ==> x.JString? && x.s in allowed)
              && ProperCategories(Categories(p), p["is_hate_speech"] == JBool(true), p["target_group"])
  {
    FieldsAreListed(p);
    if REQUIRED <= p.Keys {
      KoreanMeans(p["reasoning"]);
      hide Korean;
      if "other" in Categories(p) {
        assert |Categories(p)| == 1 ==> Categories(p)[0] == "other";
      }
      if IsStringList(p["categories"]) {
        CategoriesAreTheList(p);
        forall x | x in p["categories"].items ensures x.s in Categories(p) {
          var i :| 0 <= i < |p["categories"].items| && p["categories"].items[i] == x;
          assert Categories(p)[i] == x.s;
        }
      }
    }
  }

  ghost predicate Hangul(text: string, i: int)
    requires 0 <= i < |text|
  {
    '\U{AC00}' <= text[i] <= '\U{D7A3}'
  }

  lemma KoreanMeans(v: Json)
    ensures Korean(v) <==> v.JString? && exists i :: 0 <= i < |v.s| && Hangul(v.s, i)
  {
    if v.JString? {
      forall i | 0 <= i < |v.s| && Hangul(v.s, i) ensures Korean(v) {
        assert v.s[i] in v.s;
      }
      if Korean(v) {
        var c :| c in v.s && '\U{AC00}' <= c <= '\U{D7A3}';
        var i :| 0 <= i < |v.s| && v.s[i] == c;
        assert Hangul(v.s, i);
      }
    }
  }

  lemma FieldsAreListed(p: Payload)
    ensures (forall f :: f in REQUIRED_OUTPUT_FIELDS ==> f in p) <==> REQUIRED <= p.Keys
  {
    var r := REQUIRED_OUTPUT_FIELDS;
    assert r[0] in r && r[1] in r && r[2] in r && r[3] in r && r[4] in r && r[5] in r && r[6] in r && r[7] in r;
  }

  /** The rules for answers that claim hate speech. */
  method HateProblems(p: Payload, categories: seq<string>) returns (errors: seq<Problem>)
    ensures errors == [] <==>
              && categories != [] && "unclassified" !in categories
              && ("other" in categories ==> |categories| == 1)
              && ("no_target" in categories ==>
                    && (forall c :: c in categories ==> c == "no_target" || c == "profanity")
                    && Get(p, "target_group").JNull?)
  {
    errors := [];
    if categories == [] {
      errors := errors + [HateMustHaveCategory];
    }
    if "unclassified" in categories {
      errors := errors + [HateMustNotUseUnclassified];
    }
    if "other" in categories && |categories| > 1 {
      errors := errors + [OtherMustBeExclusive];
    }
    if "no_target" in categories {
      if exists c :: c in categories && c != "no_target" && c != "profanity" {
        errors := errors + [NoTargetConflictsWithTarget];
      }
      if !Get(p, "target_group").JNull? {
        errors := errors + [NoTargetRequiresNullTarget];
      }
    }
  }

  /** validate_classification_output: no error is recorded exactly for the answers that meet every rule. */
  method Validate(p: Payload, allowed: seq<string>) returns (errors: seq<Problem>)
    ensures errors == [] <==> Accepts(p, allowed)
  {
    errors := [];
    if exists f :: f in REQUIRED_OUTPUT_FIELDS && f !in p {
      errors := errors + [MissingFields];
    }
    var hate := Get(p, "is_hate_speech");
    if !hate.JBool? {
      errors := errors + [IsHateSpeechMustBeBool];
    }
    if !IsStringList(Get(p, "categories")) {
      errors := errors + [CategoriesMustBeStringList];
    }
    var categories := Categories(p);
    if exists c :: c in categories && c !in allowed {
      errors := errors + [UnknownCategories];
    }
    if hate == JBool(false) && categories != ["unclassified"] {
      errors := errors + [NonHateMustUseOnlyUnclassified];
    }
    if hate == JBool(true) {
      var more := HateProblems(p, categories);
      errors := errors + more;
    }
    if !ListOrAbsent(p, "similar_cases_used") {
      errors := errors + [SimilarCasesMustBeList];
    }
    if !ListOrAbsent(p, "definition_docs_used") {
      errors := errors + [DefinitionDocsMustBeList];
    }
    if !Korean(Get(p, "reasoning")) {
      errors := errors + [ReasoningMustBeKorean];
    }
    assert "similar_cases_used" in REQUIRED_OUTPUT_FIELDS && "definition_docs_used" in REQUIRED_OUTPUT_FIELDS by {
      assert REQUIRED_OUTPUT_FIELDS[6] == "similar_cases_used" && REQUIRED_OUTPUT_FIELDS[7] == "definition_docs_used";
    }
  }

  // ----- one classification ----------------------------------------------------------------------------------

  /**
   What the model said when a call was answered: a JSON object; other JSON (`null`, `"text"`, `1`, `[1]`); text on which
   the parser itself breaks (nested too deep, an integer too long); or no JSON.
   */
  datatype Answer = Object(payload: Payload) | OtherJson | Unparsable | NoJson

  /**
   The retrieval in front of the answers: stop flag, the embedding request and whether it raised over the key, and
   which of the three stores fail.
   */
  datatype Lookup = Lookup(
    stopBefore: bool, tries: nat -> Retry.Try, keyRejected: bool,
    taxonomyFails: bool, authoritativeFails: bool, examplesFail: bool)

  /** One pass of the two-answer loop: stop flag, request, whether the request raised over the key, and the answer. */
  datatype Pass = Pass(stopBefore: bool, tries: nat -> Retry.Try, keyRejected: bool, answer: Answer)

  /**
   How classify_text ends: a result or one of its exceptions; Uncaught is what the parser or the validator raises on
   an answer that is neither an object nor no JSON.
   */
  datatype ClassifyEnd =
    | Valid(payload: Payload)
    | ShuttingDown
    | KeyInvalid
    | RetrievalFailed
    | RequestFailed
    | OutputInvalid
    | Uncaught

  predicate AllStoresFail(l: Lookup) {
    l.taxonomyFails && l.authoritativeFails && l.examplesFail
  }

  /** How the retrieval ends the classification, if it does; `ended` is how the embedding request ended. */
  function LookupEnd(l: Lookup, ended: Retry.RetryEnd): Option<ClassifyEnd> {
    if l.stopBefore then Some(ShuttingDown)
    else
      match ended
      case Cancelled => Some(ShuttingDown)
      case Raised => Some(if l.keyRejected then KeyInvalid else RetrievalFailed)
      case FellThrough => Some(RetrievalFailed)
      case Answered => if AllStoresFail(l) then Some(RetrievalFailed) else None
  }

  /** How this pass ends the classification, if it does; `ended` is how its request ended. */
  ghost function PassEnd(pass: Pass, ended: Retry.RetryEnd, allowed: seq<string>): Option<ClassifyEnd> {
    if pass.stopBefore then Some(ShuttingDown)
    else
      match ended
      case Cancelled => Some(ShuttingDown)
      case Raised => Some(if pass.keyRejected then KeyInvalid else RequestFailed)
      case FellThrough => Some(RequestFailed)
      case Answered =>
        match pass.answer
        case Object(p) => if Accepts(p, allowed) then Some(Valid(p)) else None
        case OtherJson => Some(Uncaught)
        case Unparsable => Some(Uncaught)
        case NoJson => None
  }

  /** What two passes come to: the second one counts only if the first did not end it. */
  ghost predicate AnswersEndAs(
    policy: Retry.Policy, passes: nat -> Pass, allowed: seq<string>, first: Retry.RetryEnd, second: Retry.RetryEnd,
    end: ClassifyEnd)
  {
    && (!passes(1).stopBefore ==> Retry.EndsIn(policy, passes(1).tries, first))
    && match PassEnd(passes(1), first, allowed)
       case Some(e) => end == e
       case None =>
         && (!passes(2).stopBefore ==> Retry.EndsIn(policy, passes(2).tries, second))
         && match PassEnd(passes(2), second, allowed)
            case Some(e) => end == e
            case None => end == OutputInvalid
  }

  /** How the requests of a classification ended: the embedding, and the two answers. */
  datatype Requests = Requests(lookup: Retry.RetryEnd, first: Retry.RetryEnd, second: Retry.RetryEnd)

  /** What a classification comes to: retrieval first, then the answers. */
  ghost predicate EndsAs(
    policy: Retry.Policy, l: Lookup, passes: nat -> Pass, allowed: seq<string>, r: Requests, end: ClassifyEnd)
  {
    && (!l.stopBefore ==> Retry.EndsIn(policy, l.tries, r.lookup))
    && match LookupEnd(l, r.lookup)
       case Some(e) => end == e
       case None => AnswersEndAs(policy, passes, allowed, r.first, r.second, end)
  }

  /** The retrieval stage: the query is embedded outside every try block of the retriever, then the stores are asked. */
  method Retrieve(policy: Retry.Policy, l: Lookup) returns (end: Option<ClassifyEnd>, ghost ended: Retry.RetryEnd)
    ensures end == LookupEnd(l, ended)
    ensures end.None? ==> !l.stopBefore && !AllStoresFail(l) && Retry.EndsIn(policy, l.tries, Retry.Answered)
    ensures l.stopBefore ==> end == Some(ShuttingDown)
    ensures !l.stopBefore ==> Retry.EndsIn(policy, l.tries, ended)
  {
    ended := Retry.FellThrough;
    if l.stopBefore {
      return Some(ShuttingDown), ended;
    }
    var requestEnd, made, sleeps, notices := Retry.Run(policy, l.tries);
    if policy.maxAttempts >= 1 {
      Retry.SleptEnds(policy, l.tries, sleeps, requestEnd);
    }
    ended := requestEnd;
    match requestEnd {
      case Cancelled => return Some(ShuttingDown), ended;
      case Raised => return Some(if l.keyRejected then KeyInvalid else RetrievalFailed), ended;
      case FellThrough => return Some(RetrievalFailed), ended;
      case Answered =>
    }
    var failures := 0;
    if l.taxonomyFails {
      failures := failures + 1;
    }
    if l.authoritativeFails {
      failures := failures + 1;
    }
    if l.examplesFail {
      failures := failures + 1;
    }
    end := if failures == 3 then Some(RetrievalFailed) else None;
  }

  /** classify_text: at most two answers after a retrieval that came back; `calls` counts the calls for answers. */
  method ClassifyText(policy: Retry.Policy, l: Lookup, passes: nat -> Pass, allowed: seq<string>)
    returns (end: ClassifyEnd, calls: nat, ghost r: Requests)
    ensures policy.maxAttempts >= 1 ==> calls <= 2 * policy.maxAttempts
    ensures policy.maxAttempts < 1 ==> calls == 0
    ensures end.Valid? ==> Accepts(end.payload, allowed)
    ensures EndsAs(policy, l, passes, allowed, r, end)
  {
    var early;
    ghost var lookup, first, second := Retry.FellThrough, Retry.FellThrough, Retry.FellThrough;
    early, lookup := Retrieve(policy, l);
    calls := 0;
    if early.Some? {
      end := early.value;
    } else {
      end, calls, first, second := AskTwice(policy, passes, allowed);
    }
    r := Requests(lookup, first, second);
  }

  /**
   The loop of classify_text: at most two answers are asked for, each with at most max_attempts calls; the second one
   only after a first that was no valid object.  A valid answer is returned as it is, an invalid output is reported
   exactly when both answers were objects that break a rule or no JSON, and every other answer raises at once.
   */
  method AskTwice(policy: Retry.Policy, passes: nat -> Pass, allowed: seq<string>)
    returns (end: ClassifyEnd, calls: nat, ghost first: Retry.RetryEnd, ghost second: Retry.RetryEnd)
    ensures policy.maxAttempts >= 1 ==> calls <= 2 * policy.maxAttempts
    ensures policy.maxAttempts < 1 ==> calls == 0
    ensures end.Valid? ==> Accepts(end.payload, allowed)
    ensures AnswersEndAs(policy, passes, allowed, first, second, end)
  {
    calls, first, second := 0, Retry.FellThrough, Retry.FellThrough;
    var attempt := 1;
    while attempt <= 2
      invariant 1 <= attempt <= 3
      invariant policy.maxAttempts >= 1 ==> calls <= (attempt - 1) * policy.maxAttempts
      invariant policy.maxAttempts < 1 ==> calls == 0
      invariant attempt > 1 && !passes(1).stopBefore ==> Retry.EndsIn(policy, passes(1).tries, first)
      invariant attempt > 1 ==> PassEnd(passes(1), first, allowed).None?
      invariant attempt > 2 && !passes(2).stopBefore ==> Retry.EndsIn(policy, passes(2).tries, second)
      invariant attempt > 2 ==> PassEnd(passes(2), second, allowed).None?
      decreases 3 - attempt
    {
      var pass := passes(attempt);
      if pass.stopBefore {
        return ShuttingDown, calls, first, second;
      }
      var ended, made, sleeps, notices := Retry.Run(policy, pass.tries);
      calls := calls + made;
      if policy.maxAttempts >= 1 {
        Retry.SleptEnds(policy, pass.tries, sleeps, ended);
      }
      first, second := if attempt == 1 then ended else first, ended;
      match ended {
        case Cancelled => return ShuttingDown, calls, first, second;
        case Raised => return if pass.keyRejected then KeyInvalid else RequestFailed, calls, first, second;
        case FellThrough => return RequestFailed, calls, first, second;
        case Answered =>
      }
      match pass.answer {
        case Object(p) =>
          var errors := Validate(p, allowed);
          if errors == [] {
            return Valid(p), calls, first, second;
          }
        case OtherJson => return Uncaught, calls, first, second;
        case Unparsable => return Uncaught, calls, first, second;
        case NoJson =>
      }
      attempt := attempt + 1;
    }
    end := OutputInvalid;
  }

  /** Stop flags, requests, stores and answers determine how the classification ends. */
  lemma ClassificationIsDetermined(
    policy: Retry.Policy, l: Lookup, passes: nat -> Pass, allowed: seq<string>,
    r: Requests, end: ClassifyEnd, r': Requests, end': ClassifyEnd)
    requires EndsAs(policy, l, passes, allowed, r, end) && EndsAs(policy, l, passes, allowed, r', end')
    ensures end == end'
  {
    hide Accepts, Retry.EndsIn;
    if !l.stopBefore {
      Retry.EndIsDetermined(policy, l.tries, r.lookup, r'.lookup);
    }
    if LookupEnd(l, r.lookup).None? {
      if !passes(1).stopBefore {
        Retry.EndIsDetermined(policy, passes(1).tries, r.first, r'.first);
      }
      if PassEnd(passes(1), r.first, allowed).None? && !passes(2).stopBefore {
        Retry.EndIsDetermined(policy, passes(2).tries, r.second, r'.second);
      }
    }
  }

  // ----- results ---------------------------------------------------------------------------------------------------

  /** A stored result row: a failed one has no label and no categories. */
  datatype Result = Result(ok: bool, hate: bool, categories: seq<string>)

  /** The result that is stored for the item; the other ends propagate and store nothing. */
  function ResultOf(end: ClassifyEnd): Option<Result> {
    match end
    case Valid(p) => Some(Result(true, Get(p, "is_hate_speech") == JBool(true), Categories(p)))
    case RetrievalFailed => Some(Result(false, false, []))
    case RequestFailed => Some(Result(false, false, []))
    case OutputInvalid => Some(Result(false, false, []))
    case _ => None
  }

  /** What the future of the item yields to the coordinator; `code` stands for the stored columns. */
  function FutureOf(end: ClassifyEnd, code: Result -> int): Coordination.Classified {
    match ResultOf(end)
    case Some(r) => Coordination.Classified(Outcome(r.ok, code(r)))
    case None => if end.ShuttingDown? then Coordination.StopRaised else Coordination.ErrorRaised
  }

  /** What every stored result satisfies. */
  predicate Labelled(r: Result) {
    && (!r.ok ==> !r.hate && r.categories == [])
    && (r.ok && r.hate ==> r.categories != [] && "unclassified" !in r.categories)
    && (r.ok && !r.hate ==> r.categories == ["unclassified"])
  }

  /**
   Whatever a classification is stored as is properly labelled, and it is stored exactly when it ended in a valid answer
   or in an error of retrieval, request or output.
   */
  lemma OutcomesAreLabelled(
    policy: Retry.Policy, l: Lookup, passes: nat -> Pass, allowed: seq<string>, r: Requests, end: ClassifyEnd)
    requires EndsAs(policy, l, passes, allowed, r, end)
    ensures ResultOf(end).Some? ==> Labelled(ResultOf(end).value)
    ensures ResultOf(end).Some? <==> end.Valid? || end.RetrievalFailed? || end.RequestFailed? || end.OutputInvalid?
  {
  }

  // ----- every end, said of flags, requests, stores and answers ---------------------------------------------------

  /** The query was embedded, and some store answered. */
  ghost predicate Retrieved(policy: Retry.Policy, l: Lookup) {
    && !l.stopBefore && Retry.EndsIn(policy, l.tries, Retry.Answered)
    && !(l.taxonomyFails && l.authoritativeFails && l.examplesFail)
  }

  /** This pass is answered. */
  ghost predicate GotAnswer(policy: Retry.Policy, pass: Pass) {
    !pass.stopBefore && Retry.EndsIn(policy, pass.tries, Retry.Answered)
  }

  /** The answer is no valid object, in a way that is worth another try. */
  ghost predicate WorthAnother(answer: Answer, allowed: seq<string>) {
    answer.NoJson? || (answer.Object? && !Accepts(answer.payload, allowed))
  }

  /** The first or the second pass is reached; this holds of the one with number n. */
  ghost predicate Reached(policy: Retry.Policy, l: Lookup, passes: nat -> Pass, allowed: seq<string>, n: nat) {
    && Retrieved(policy, l)
    && (n == 1 || (n == 2 && GotAnswer(policy, passes(1)) && WorthAnother(passes(1).answer, allowed)))
  }

  ghost predicate Interrupted(policy: Retry.Policy, stopBefore: bool, tries: nat -> Retry.Try) {
    stopBefore || Retry.EndsIn(policy, tries, Retry.Cancelled)
  }

  ghost predicate KeyRejectedBy(
    policy: Retry.Policy, stopBefore: bool, tries: nat -> Retry.Try, keyRejected: bool)
  {
    !stopBefore && Retry.EndsIn(policy, tries, Retry.Raised) && keyRejected
  }

  ghost predicate FailedBy(policy: Retry.Policy, stopBefore: bool, tries: nat -> Retry.Try, keyRejected: bool) {
    && !stopBefore
    && (Retry.EndsIn(policy, tries, Retry.FellThrough) || (Retry.EndsIn(policy, tries, Retry.Raised) && !keyRejected))
  }

  /** How one reached pass ends, from its own flag, request and answer. */
  lemma PassEndsExactlyWhen(policy: Retry.Policy, pass: Pass, allowed: seq<string>, ended: Retry.RetryEnd)
    requires !pass.stopBefore ==> Retry.EndsIn(policy, pass.tries, ended)
    ensures var e := PassEnd(pass, ended, allowed);
            && (e == Some(ShuttingDown) <==> Interrupted(policy, pass.stopBefore, pass.tries))
            && (e == Some(KeyInvalid) <==> KeyRejectedBy(policy, pass.stopBefore, pass.tries, pass.keyRejected))
            && (e == Some(RequestFailed) <==> FailedBy(policy, pass.stopBefore, pass.tries, pass.keyRejected))
            && (e == Some(Uncaught) <==>
                  GotAnswer(policy, pass) && (pass.answer.OtherJson? || pass.answer.Unparsable?))
            && (e.None? <==> GotAnswer(policy, pass) && WorthAnother(pass.answer, allowed))
            && (forall p :: e == Some(Valid(p)) <==>
                  GotAnswer(policy, pass) && pass.answer == Object(p) && Accepts(p, allowed))
            && e != Some(RetrievalFailed) && e != Some(OutputInvalid)
  {
    hide Accepts, Retry.EndsIn;
    OnlyEnd(policy, pass.stopBefore, pass.tries, ended);
  }

  lemma OnlyEnd(policy: Retry.Policy, stopBefore: bool, tries: nat -> Retry.Try, ended: Retry.RetryEnd)
    requires !stopBefore ==> Retry.EndsIn(policy, tries, ended)
    ensures !stopBefore ==> forall e: Retry.RetryEnd :: Retry.EndsIn(policy, tries, e) <==> e == ended
  {
    hide Retry.EndsIn;
    if !stopBefore {
      forall e: Retry.RetryEnd | Retry.EndsIn(policy, tries, e) ensures e == ended {
        Retry.EndIsDetermined(policy, tries, e, ended);
      }
    }
  }

  lemma LookupEndsExactlyWhen(policy: Retry.Policy, l: Lookup, ended: Retry.RetryEnd)
    requires !l.stopBefore ==> Retry.EndsIn(policy, l.tries, ended)
    ensures var e := LookupEnd(l, ended);
            && (e == Some(ShuttingDown) <==> Interrupted(policy, l.stopBefore, l.tries))
            && (e == Some(KeyInvalid) <==> KeyRejectedBy(policy, l.stopBefore, l.tries, l.keyRejected))
            && (e == Some(RetrievalFailed) <==>
                  || FailedBy(policy, l.stopBefore, l.tries, l.keyRejected)
                  || (&& !l.stopBefore && Retry.EndsIn(policy, l.tries, Retry.Answered)
                      && l.taxonomyFails && l.authoritativeFails && l.examplesFail))
            && (e.None? <==> Retrieved(policy, l))
            && e != Some(RequestFailed) && e != Some(OutputInvalid) && e != Some(Uncaught)
            && (e.Some? ==> !e.value.Valid?)
  {
    hide Retry.EndsIn;
    OnlyEnd(policy, l.stopBefore, l.tries, ended);
  }

  /**
   Each end of a classification, exactly when: a shutdown for a flag or a cancelled request, before retrieval or in a
   pass that is reached; a rejected key; a failed retrieval; a failed request; an uncaught error; a valid answer; and an
   invalid output when both answers were worth another try.
   */
  lemma EndsExactlyWhen(
    policy: Retry.Policy, l: Lookup, passes: nat -> Pass, allowed: seq<string>, r: Requests, end: ClassifyEnd)
    requires EndsAs(policy, l, passes, allowed, r, end)
    ensures end == ShuttingDown <==>
              || Interrupted(policy, l.stopBefore, l.tries)
              || exists n :: 1 <= n <= 2 && Reached(policy, l, passes, allowed, n)
                             && Interrupted(policy, passes(n).stopBefore, passes(n).tries)
    ensures end == KeyInvalid <==>
              || KeyRejectedBy(policy, l.stopBefore, l.tries, l.keyRejected)
              || exists n :: 1 <= n <= 2 && Reached(policy, l, passes, allowed, n)
                             && KeyRejectedBy(policy, passes(n).stopBefore, passes(n).tries, passes(n).keyRejected)
    ensures end == RetrievalFailed <==>
              || FailedBy(policy, l.stopBefore, l.tries, l.keyRejected)
              || (&& !l.stopBefore && Retry.EndsIn(policy, l.tries, Retry.Answered)
                  && l.taxonomyFails && l.authoritativeFails && l.examplesFail)
    ensures end == RequestFailed <==>
              exists n :: 1 <= n <= 2 && Reached(policy, l, passes, allowed, n)
                          && FailedBy(policy, passes(n).stopBefore, passes(n).tries, passes(n).keyRejected)
    ensures end == Uncaught <==>
              exists n :: 1 <= n <= 2 && Reached(policy, l, passes, allowed, n)
                          && GotAnswer(policy, passes(n))
                          && (passes(n).answer.OtherJson? || passes(n).answer.Unparsable?)
    ensures end == OutputInvalid <==>
              && Reached(policy, l, passes, allowed, 2)
              && GotAnswer(policy, passes(2)) && WorthAnother(passes(2).answer, allowed)
    ensures forall p :: end == Valid(p) <==>
              exists n :: 1 <= n <= 2 && Reached(policy, l, passes, allowed, n)
                          && GotAnswer(policy, passes(n)) && passes(n).answer == Object(p) && Accepts(p, allowed)
  {
    hide Accepts, Retry.EndsIn, Interrupted, KeyRejectedBy, FailedBy, GotAnswer, WorthAnother, Retrieved;
    hide PassEnd, LookupEnd;
    LookupEndsExactlyWhen(policy, l, r.lookup);
    if LookupEnd(l, r.lookup).None? {
      PassEndsExactlyWhen(policy, passes(1), allowed, r.first);
      assert Reached(policy, l, passes, allowed, 1);
      if PassEnd(passes(1), r.first, allowed).None? {
        PassEndsExactlyWhen(policy, passes(2), allowed, r.second);
        assert Reached(policy, l, passes, allowed, 2);
      }
    }
  }

  /** What the future yields, from how the classification ended; a stored outcome is the classification's own. */
  lemma FutureExactlyWhen(end: ClassifyEnd, code: Result -> int)
    ensures FutureOf(end, code).StopRaised? <==> end.ShuttingDown?
    ensures FutureOf(end, code).ErrorRaised? <==> end.KeyInvalid? || end.Uncaught?
    ensures FutureOf(end, code).Classified? <==>
              end.Valid? || end.RetrievalFailed? || end.RequestFailed? || end.OutputInvalid?
    ensures FutureOf(end, code).Classified? ==> (FutureOf(end, code).outcome.ok <==> end.Valid?)
    ensures end.Valid? ==>
              && ResultOf(end).Some? && ResultOf(end).value.ok
              && (ResultOf(end).value.hate <==> Get(end.payload, "is_hate_speech") == JBool(true))
              && ResultOf(end).value.categories == Categories(end.payload)
  {
  }

  /**
   The future raises the shutdown signal, so that the item stays open and gets no row, exactly when a stop flag was up
   before retrieval or a pass that is reached, or the embedding or such a pass's request was cancelled.
   */
  lemma StopsCleanlyExactlyWhen(
    policy: Retry.Policy, l: Lookup, passes: nat -> Pass, allowed: seq<string>, r: Requests, end: ClassifyEnd,
    code: Result -> int)
    requires EndsAs(policy, l, passes, allowed, r, end)
    ensures FutureOf(end, code).StopRaised? <==>
              || Interrupted(policy, l.stopBefore, l.tries)
              || exists n :: 1 <= n <= 2 && Reached(policy, l, passes, allowed, n)
                             && Interrupted(policy, passes(n).stopBefore, passes(n).tries)
  {
    hide EndsAs, Interrupted, Reached;
    EndsExactlyWhen(policy, l, passes, allowed, r, end);
  }

  /**
   A classification fails the whole step exactly when the embedding request or a reached pass's request was rejected
   over the key, or a reached pass was answered by neither an object nor no JSON.
   */
  lemma FailsTheStepExactlyWhen(
    policy: Retry.Policy, l: Lookup, passes: nat -> Pass, allowed: seq<string>, r: Requests, end: ClassifyEnd,
    code: Result -> int)
    requires EndsAs(policy, l, passes, allowed, r, end)
    ensures FutureOf(end, code).ErrorRaised? <==>
              || KeyRejectedBy(policy, l.stopBefore, l.tries, l.keyRejected)
              || exists n :: 1 <= n <= 2 && Reached(policy, l, passes, allowed, n)
                             && (|| KeyRejectedBy(policy, passes(n).stopBefore, passes(n).tries, passes(n).keyRejected)
                                 || (&& GotAnswer(policy, passes(n))
                                     && (passes(n).answer.OtherJson? || passes(n).answer.Unparsable?)))
  {
    hide EndsAs, KeyRejectedBy, Reached, GotAnswer;
    EndsExactlyWhen(policy, l, passes, allowed, r, end);
  }

  /** A request that is answered at the first attempt. */
  ghost predicate AnsweredAtOnce(policy: Retry.Policy, tries: nat -> Retry.Try) {
    policy.maxAttempts >= 1 && !tries(1).stopBefore && tries(1).answers
  }

  /** The input that shows it: the first reply is JSON without being an object. */
  lemma OtherJsonFailsTheStep(
    policy: Retry.Policy, l: Lookup, passes: nat -> Pass, allowed: seq<string>, code: Result -> int)
    requires !l.stopBefore && AnsweredAtOnce(policy, l.tries) && !AllStoresFail(l)
    requires !passes(1).stopBefore && AnsweredAtOnce(policy, passes(1).tries) && passes(1).answer.OtherJson?
    ensures EndsAs(policy, l, passes, allowed, Requests(Retry.Answered, Retry.Answered, Retry.Answered), Uncaught)
    ensures FutureOf(Uncaught, code).ErrorRaised?
  {
    assert Retry.EndsAfter(policy, l.tries, 0, Retry.Answered);
    assert Retry.EndsAfter(policy, passes(1).tries, 0, Retry.Answered);
  }

  /** And another: the embedding request is rejected over the key, before any answer was asked for. */
  lemma RejectedEmbeddingFailsTheStep(
    policy: Retry.Policy, l: Lookup, passes: nat -> Pass, allowed: seq<string>, code: Result -> int)
    requires policy.maxAttempts >= 1 && !l.stopBefore && l.keyRejected
    requires var t := l.tries(1); !t.stopBefore && !t.answers && !t.retryable
    ensures EndsAs(policy, l, passes, allowed, Requests(Retry.Raised, Retry.Answered, Retry.Answered), KeyInvalid)
    ensures FutureOf(KeyInvalid, code).ErrorRaised?
  {
    assert Retry.EndsAfter(policy, l.tries, 0, Retry.Raised);
  }
}
