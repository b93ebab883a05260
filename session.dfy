/**
 * The button handler of the script (app.py:269-377) over the three session
 * fields set up at app.py:170-176, and one pass of the script (the handler
 * when the button was pressed, then the results block at app.py:380).
 *
 * The two services are not called here: what the autocomplete search and
 * the text generator would answer is passed in (`Reply`), and the run
 * reports which calls it made, in order (`Call`). `st.stop()` ends the run.
 */
module RunSession {
  import opened Base
  import opened PyText
  import opened Suggestions
  import opened ContentParser
  import opened ResultPresenter

  /** Whether each credential is set to a non-empty string. */
  datatype Keys = Keys(serpApi: bool, openAi: bool)

  /** The three selections above the button: the number of ideas, the format, the audience. */
  datatype Settings = Settings(count: nat, format: string, audience: string)

  /** What an external call does: raise an exception, or return a value. */
  datatype Reply<T> = Raised | Returned(value: T)

  /** An external call the run makes: the search with its query, the generator with what its prompt embeds. */
  datatype Call =
    | Search(query: string)
    | Generate(settings: Settings, topic: string, trends: seq<string>)

  /** How a press of the button ends. */
  datatype Outcome = MissingKey | EmptyTopic | FetchFailed | NoTrends | GenerateFailed | Generated
  {
    /** The two input checks that stop the run before anything is touched. */
    predicate IsRejected() {
      this == MissingKey || this == EmptyTopic
    }
  }

  /** The three session fields. */
  datatype State = State(generatedContent: Option<seq<string>>, searchTerms: seq<string>, topicUsed: string)

  /** The fields as the first pass of a session sets them (app.py:170-176). */
  const Initial: State := State(None, [], "")

  /** The outcome of one press, the calls made, in order, and the fields afterwards. */
  datatype Run = Run(outcome: Outcome, calls: seq<Call>, after: State)

  /**
   * What the session fields can hold between runs: stored ideas come with
   * the trimmed non-empty topic and the non-empty trend list they were made
   * from; the trend list is always ascending without repeats; and each
   * stored idea is non-empty with no whitespace at either end.
   */
  predicate Valid(s: State) {
    StrictlySorted(s.searchTerms)
    && (s.generatedContent.Some? ==>
          s.topicUsed != [] && IsTrimmed(s.topicUsed) && s.searchTerms != []
          && forall i :: 0 <= i < |s.generatedContent.value| ==>
               |s.generatedContent.value[i]| > 0 && IsTrimmed(s.generatedContent.value[i]))
  }

  /**
   * One press of the button, as a function of the session fields before it,
   * the credentials, the topic as typed, the settings and the two replies.
   * The credential check comes first, then the topic check; past them the
   * fields are cleared and the stripped topic stored before the search.
   */
  function Handle(before: State, keys: Keys, topic: string, settings: Settings,
                  search: Reply<Payload>, generate: Reply<string>): (run: Run)
    // at most the two services are called, and a press that calls neither changes nothing
    ensures |run.calls| <= 2
    ensures run.outcome.IsRejected() <==> run.calls == []
    ensures run.outcome.IsRejected() ==> run.after == before
    ensures run.outcome == Generated ==> run.after.generatedContent.Some?
  {
    if !keys.serpApi || !keys.openAi then Run(MissingKey, [], before)
    else
      var t := Trim(topic);
      if t == [] then Run(EmptyTopic, [], before)
      else
        var cleared := State(None, [], t);
        var query := [Search(t)];
        if search.Raised? then Run(FetchFailed, query, cleared)
        else
          var values := Values(search.value);
          if values.None? then Run(FetchFailed, query, cleared)
          else
            var terms := Normalize(values.value);
            var fetched := cleared.(searchTerms := terms);
            if terms == [] then Run(NoTrends, query, fetched)
            else
              var calls := query + [Generate(settings, topic, terms)];
              if generate.Raised? then Run(GenerateFailed, calls, fetched)
              else Run(Generated, calls, fetched.(generatedContent := Some(Parse(generate.value, settings.count))))
  }

  /**
   * The two input checks: a missing credential stops the press, and so does
   * a topic that is empty or all whitespace; a press they stop calls
   * neither service and leaves every field as it was.
   */
  lemma HandleRejects(before: State, keys: Keys, topic: string, settings: Settings,
                      search: Reply<Payload>, generate: Reply<string>)
    ensures var run := Handle(before, keys, topic, settings, search, generate);
      (run.outcome == MissingKey <==> !keys.serpApi || !keys.openAi)
      && (run.outcome == EmptyTopic <==> keys.serpApi && keys.openAi && AllSpace(topic))
      && (run.outcome.IsRejected() <==> run.calls == [])
      && (run.outcome.IsRejected() ==> run.after == before)
  {
    TrimEmptyIffAllSpace(topic);
  }

  /**
   * A press that passes the checks stores the stripped topic and searches
   * for it first; unless it ends with ideas, it leaves no ideas stored, so
   * nothing from an earlier press can be shown; a failed search leaves the
   * trend list empty.
   */
  lemma HandleClears(before: State, keys: Keys, topic: string, settings: Settings,
                     search: Reply<Payload>, generate: Reply<string>)
    ensures var run := Handle(before, keys, topic, settings, search, generate);
      !run.outcome.IsRejected() ==>
        run.after.topicUsed == Trim(topic) && run.after.topicUsed != []
        && |run.calls| >= 1 && run.calls[0] == Search(Trim(topic))
        && (run.outcome != Generated ==> run.after.generatedContent == None)
        && (run.outcome == FetchFailed ==> run.after.searchTerms == [] && |run.calls| == 1)
  {
    TrimEmptyIffAllSpace(topic);
  }

  /**
   * After a search that answered, the stored trends are its distinct values
   * in ascending order, stored even when there are none; no trends ends the
   * press after the search alone.
   */
  lemma HandleStoresTrends(before: State, keys: Keys, topic: string, settings: Settings,
                           search: Reply<Payload>, generate: Reply<string>)
    ensures var run := Handle(before, keys, topic, settings, search, generate);
      (run.outcome in {NoTrends, GenerateFailed, Generated} ==>
         search.Returned? && Values(search.value).Some?
         && run.after.searchTerms == Normalize(Values(search.value).value))
      && (run.outcome == NoTrends <==>
            !run.outcome.IsRejected() && run.outcome != FetchFailed && run.after.searchTerms == [])
      && (!run.outcome.IsRejected() && search.Returned? && Values(search.value).Some? ==>
            run.outcome != FetchFailed)
      && (run.outcome == NoTrends ==> |run.calls| == 1)
  {
  }

  /**
   * The generator is asked second, only with a non-empty trend list (the
   * stored one), the settings and the topic as typed; the press ends with
   * ideas exactly when it answered, and the stored ideas are the parse of
   * its text.
   */
  lemma HandleGenerates(before: State, keys: Keys, topic: string, settings: Settings,
                        search: Reply<Payload>, generate: Reply<string>)
    ensures var run := Handle(before, keys, topic, settings, search, generate);
      (forall i :: 0 <= i < |run.calls| && run.calls[i].Generate? ==>
         i == 1 && run.calls[i] == Generate(settings, topic, run.after.searchTerms)
         && run.after.searchTerms != [])
      && (run.outcome in {GenerateFailed, Generated} <==> |run.calls| == 2)
      && (run.outcome == Generated <==> !run.outcome.IsRejected() && run.after.generatedContent.Some?)
      && (run.outcome == Generated ==>
            generate.Returned? && run.after.generatedContent == Some(Parse(generate.value, settings.count)))
      && (run.outcome !in {MissingKey, EmptyTopic, FetchFailed} && run.after.searchTerms != [] ==>
            |run.calls| == 2)
      && (|run.calls| == 2 ==> (run.outcome == Generated <==> generate.Returned?))
      && (|run.calls| == 2 ==> run.calls[1] == Generate(settings, topic, run.after.searchTerms))
  {
  }

  /**
   * Which way a press ends, as a function of its inputs alone: past the two
   * checks, a search that raises or has an entry without a value fails; one
   * whose values are all absent finds no trends; otherwise the generator is
   * called, and the press ends with ideas exactly when it answers. The
   * number of calls follows.
   */
  lemma HandleOutcome(before: State, keys: Keys, topic: string, settings: Settings,
                      search: Reply<Payload>, generate: Reply<string>)
    ensures var run := Handle(before, keys, topic, settings, search, generate);
      var passed := keys.serpApi && keys.openAi && !AllSpace(topic);
      var answered := search.Returned? && Values(search.value).Some?;
      var trends := answered && Values(search.value).value != [];
      (run.outcome == FetchFailed <==> passed && !answered)
      && (run.outcome == NoTrends <==> passed && answered && !trends)
      && (run.outcome == GenerateFailed <==> passed && trends && generate.Raised?)
      && (run.outcome == Generated <==> passed && trends && generate.Returned?)
      && run.calls == (if !passed then []
                       else if !trends then [Search(Trim(topic))]
                       else [Search(Trim(topic)), Generate(settings, topic, Normalize(Values(search.value).value))])
  {
    TrimEmptyIffAllSpace(topic);
    if search.Returned? && Values(search.value).Some? {
      NormalizeEmptyIff(Values(search.value).value);
    }
  }

  /** The fields start valid, and every press keeps them valid. */
  lemma HandleKeepsValid(before: State, keys: Keys, topic: string, settings: Settings,
                         search: Reply<Payload>, generate: Reply<string>)
    requires Valid(before)
    ensures Valid(Handle(before, keys, topic, settings, search, generate).after)
  {
    var run := Handle(before, keys, topic, settings, search, generate);
    if !run.outcome.IsRejected() {
      assert IsTrimmed(run.after.topicUsed);
      if run.outcome == Generated {
        ParseProperties(generate.value, settings.count);
      }
    }
  }

  lemma InitialValid()
    ensures Valid(Initial)
  {
  }

  /**
   * A press that gets past the two checks starts afresh: what it leaves
   * does not depend on what the fields held before it.
   */
  lemma HandleForgetsPrevious(b1: State, b2: State, keys: Keys, topic: string, settings: Settings,
                              search: Reply<Payload>, generate: Reply<string>)
    requires !Handle(b1, keys, topic, settings, search, generate).outcome.IsRejected()
    ensures Handle(b1, keys, topic, settings, search, generate) == Handle(b2, keys, topic, settings, search, generate)
  {
  }

  /** The stored ideas: at most the number asked for, from the front of the cleaned lines, non-empty and trimmed. */
  lemma GeneratedIdeas(before: State, keys: Keys, topic: string, settings: Settings,
                       search: Reply<Payload>, text: string)
    requires Handle(before, keys, topic, settings, search, Returned(text)).outcome == Generated
    ensures var ideas := Handle(before, keys, topic, settings, search, Returned(text)).after.generatedContent.value;
      |ideas| <= settings.count
      && ideas == CleanAll(IdeaLines(text))[..|ideas|]
      && forall i :: 0 <= i < |ideas| ==> |ideas[i]| > 0 && IsTrimmed(ideas[i])
  {
    ParseProperties(text, settings.count);
  }

  /** The session fields of one browser session, updated in place by the handler. */
  class Session {
    var generatedContent: Option<seq<string>>
    var searchTerms: seq<string>
    var topicUsed: string

    function Snapshot(): State
      reads this
    {
      State(generatedContent, searchTerms, topicUsed)
    }

    /** The first pass of a session sets the three fields (app.py:170-176). */
    constructor ()
      ensures Snapshot() == Initial
    {
      generatedContent := None;
      searchTerms := [];
      topicUsed := "";
    }

    /** One press of the button (app.py:269-377), changing the fields one step at a time. */
    method Click(keys: Keys, topic: string, settings: Settings,
                 search: Reply<Payload>, generate: Reply<string>) returns (outcome: Outcome, calls: seq<Call>)
      modifies this
      ensures Run(outcome, calls, Snapshot()) == Handle(old(Snapshot()), keys, topic, settings, search, generate)
    {
      ghost var before := Snapshot();
      calls := [];
      if !keys.serpApi || !keys.openAi {
        return MissingKey, calls;
      }
      var t := Trim(topic);
      if |t| == 0 {
        return EmptyTopic, calls;
      }
      generatedContent := None;
      searchTerms := [];
      topicUsed := t;

      calls := calls + [Search(t)];
      if search.Raised? {
        return FetchFailed, calls;
      }
      var values := CollectValues(search.value);
      if values.None? {
        return FetchFailed, calls;
      }
      var terms := Normalize(values.value);
      searchTerms := terms;
      if |terms| == 0 {
        return NoTrends, calls;
      }
      assert Handle(before, keys, topic, settings, search, generate).calls == calls + [Generate(settings, topic, terms)];

      calls := calls + [Generate(settings, topic, searchTerms)];
      if generate.Raised? {
        return GenerateFailed, calls;
      }
      var ideas := IdeaLines(generate.value);
      var cleaned := CleanIdeas(ideas);
      generatedContent := Some(Take(cleaned, settings.count));
      outcome := Generated;
    }

    /**
     * One pass of the script: the handler if the button was pressed, then
     * the results block, which a run ended by `st.stop()` never reaches.
     */
    method Rerun(pressed: bool, keys: Keys, topic: string, settings: Settings,
                 search: Reply<Payload>, generate: Reply<string>) returns (shown: Option<View>)
      modifies this
      ensures !pressed ==> Snapshot() == old(Snapshot())
      ensures pressed ==> Snapshot() == Handle(old(Snapshot()), keys, topic, settings, search, generate).after
      ensures pressed && Handle(old(Snapshot()), keys, topic, settings, search, generate).outcome != Generated ==> shown == None
      ensures !pressed || Handle(old(Snapshot()), keys, topic, settings, search, generate).outcome == Generated ==>
                shown == Display(generatedContent, searchTerms, topicUsed)
    {
      if pressed {
        var outcome, calls := Click(keys, topic, settings, search, generate);
        if outcome != Generated {
          return None;
        }
      }
      shown := Display(generatedContent, searchTerms, topicUsed);
    }
  }

  /**
   * After a rejected press the results block is skipped on that pass, but
   * the fields are untouched, so the next pass without a press shows the
   * earlier ideas again.
   */
  lemma RejectedKeepsEarlierResult(before: State, keys: Keys, topic: string, settings: Settings,
                                   search: Reply<Payload>, generate: Reply<string>)
    requires Handle(before, keys, topic, settings, search, generate).outcome.IsRejected()
    ensures var after := Handle(before, keys, topic, settings, search, generate).after;
      Display(after.generatedContent, after.searchTerms, after.topicUsed)
      == Display(before.generatedContent, before.searchTerms, before.topicUsed)
  {
  }

  /**
   * A press that got past the checks but produced no ideas leaves nothing
   * to show on any later pass until the next successful press.
   */
  lemma NoStaleDisplay(before: State, keys: Keys, topic: string, settings: Settings,
                       search: Reply<Payload>, generate: Reply<string>)
    requires var o := Handle(before, keys, topic, settings, search, generate).outcome;
      !o.IsRejected() && o != Generated
    ensures var after := Handle(before, keys, topic, settings, search, generate).after;
      Display(after.generatedContent, after.searchTerms, after.topicUsed) == None
  {
  }

  /**
   * After a successful press that kept at least one idea, the page lists
   * the ideas labelled from 1, the trends, and offers the download under
   * the name made from the stripped topic.
   */
  lemma GeneratedDisplay(before: State, keys: Keys, topic: string, settings: Settings,
                         search: Reply<Payload>, text: string)
    requires var run := Handle(before, keys, topic, settings, search, Returned(text));
      run.outcome == Generated && run.after.generatedContent.value != []
    ensures var after := Handle(before, keys, topic, settings, search, Returned(text)).after;
      var v := Display(after.generatedContent, after.searchTerms, after.topicUsed);
      v.Some? && Texts(v.value.ideas) == Parse(text, settings.count)
      && v.value.fileName == DownloadName(Trim(topic))
      && Texts(v.value.terms) == after.searchTerms && after.searchTerms != []
  {
    var run := Handle(before, keys, topic, settings, search, Returned(text));
    HandleClears(before, keys, topic, settings, search, Returned(text));
    HandleGenerates(before, keys, topic, settings, search, Returned(text));
    assert run.calls[1].Generate?;
    var after := run.after;
    assert after.generatedContent == Some(Parse(text, settings.count));
    assert after.topicUsed == Trim(topic);
    var v := Display(after.generatedContent, after.searchTerms, after.topicUsed);
    assert v.Some?;
  }
}
