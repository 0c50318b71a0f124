/** How a send and a check go, step by step and from end to end. */
module SubmissionOutcomes {
  import opened Common
  import opened ChatSubmission
  import opened SubmissionResults

  /** A send begins exactly when none is under way or pending, there is a text, and the
      composer with the new submission could be kept in the browser. */
  lemma SendMeans(s: System, text: string, keepText: bool, stored: bool)
    ensures var sent := Submission(s.made, text, s.composer.text, keepText);
      Next(s, Send(text, keepText, stored)) ==
        if s.flow.Idle? && s.composer.pending.None? && text != "" && stored then
          s.(composer := Composer(s.composer.text, s.composer.attachments, Some(sent)),
             flow := Saving(sent), made := s.made + 1)
        else s
  {
  }

  /** What the user typed meanwhile, if anything. */
  function Typing(typed: Option<(string, seq<string>)>): seq<Step> {
    if typed.None? then [] else [Type(typed.value.0, typed.value.1)]
  }

  /** The composer once its submission is known to be recorded: cleared if it is
      still the text that was sent and is not to be kept, and otherwise as typed. */
  predicate Settles(before: Composer, after: Composer, sent: Submission) {
    && after.pending.None?
    && (if before.text == sent.composerText && !sent.keepText then after.text == "" && after.attachments == []
        else after.text == before.text && after.attachments == before.attachments)
  }

  /** A send that reaches the engine and is answered: the submission is posted,
      recorded once and confirmed, and the composer is cleared unless the user typed
      something else meanwhile or the text is to be kept. */
  lemma SendsArrive(
      s: System, text: string, keepText: bool, typed: Option<(string, seq<string>)>, answered: bool)
    requires Inv(s) && s.flow.Idle? && s.composer.pending.None? && text != ""
    ensures var sent := Submission(s.made, text, s.composer.text, keepText);
      var outcome := if answered then Records else RecordsAndFails;
      var posted := Run(Next(Next(Next(s, Send(text, keepText, true)), Flushed(true)), Flushed(true)), Typing(typed));
      && posted.flow == Posting(sent) && posted.posts == s.posts + {sent} && posted.composer.pending == Some(sent)
      && var served := Next(posted, ServePost(sent, outcome));
      && served.recorded == s.recorded + {sent.id} && sent.id !in s.recorded
      && (if answered then Accepted(sent) in served.answers else Failed(sent) in served.answers)
      && (answered ==>
            var u := Next(served, PostAnswered(Accepted(sent)));
            && u.flow.Idle? && Settles(posted.composer, u.composer, sent)
            && u.trace == s.trace + [Posted(sent.id), Recorded(sent.id), Confirmed(sent.id)])
  {
    var sent := Submission(s.made, text, s.composer.text, keepText);
    var saved := s.(composer := s.composer.(pending := Some(sent)), flow := Posting(sent), made := s.made + 1,
                    posts := s.posts + {sent}, trace := s.trace + [Posted(sent.id)]);
    assert Next(Next(Next(s, Send(text, keepText, true)), Flushed(true)), Flushed(true)) == saved;
    if typed.Some? { RunOne(saved, Typing(typed)[0]); }
    assert sent.id in s.recorded ==> Recorded(sent.id) in s.trace;
  }

  lemma RunOne(s: System, a: Step)
    ensures Run(s, [a]) == Next(s, a)
  {
    assert [a][1..] == [];
  }

  /** A flush that fails ends the send before anything is posted; the submission stays
      pending with the text. A post that fails, or is given up, leaves it pending too. */
  lemma FailedSendsStayPending(s: System, sent: Submission)
    requires s.composer.pending == Some(sent)
    ensures s.flow == Saving(sent) || s.flow == SavingAgain(sent) ==> Next(s, Flushed(false)) == s.(flow := Idle)
    ensures s.flow == Posting(sent) ==> Next(s, PostGivenUp) == s.(flow := Idle)
    ensures s.flow == Posting(sent) && Failed(sent) in s.answers ==>
      Next(s, PostAnswered(Failed(sent))) == s.(flow := Idle, trace := s.trace + [Rejected(sent.id)])
  {
  }

  /** The engine records a submission once, whatever arrives, and answers a repeat
      as accepted; a refused one leaves no record. */
  lemma EngineRecordsOnce(s: System, post: Submission, outcome: Outcome)
    requires post in s.posts
    ensures var u := Next(s, ServePost(post, outcome));
      && u.posts == s.posts - {post} && u.composer == s.composer && u.flow == s.flow
      && u.recorded == (if outcome.Refuses? then s.recorded else s.recorded + {post.id})
      && u.answers == s.answers +
           {if post.id in s.recorded || outcome.Records? then Accepted(post) else Failed(post)}
  {
  }

  /** A check begins exactly when no send is under way and a submission is pending, and
      asks about that one. */
  lemma CheckMeans(s: System)
    ensures var u := Next(s, Check);
      if s.flow.Idle? && s.composer.pending.Some? then
        var query := Query(s.made, s.composer.pending.value.id);
        u == s.(checks := s.checks + {query}, queries := s.queries + {query}, made := s.made + 1)
      else u == s
  {
  }

  /** The answer to a check settles the submission it was about, if that is still the
      pending one: found, as an accepted post would; missing, by handing the text
      back. An answer about another submission settles nothing. */
  lemma ChecksSettle(s: System, query: Query)
    requires query in s.checks
    ensures Found(query) in s.answers && IsPending(s, query.id) ==>
      var u := Next(s, CheckAnswered(Found(query)));
      && Settles(s.composer, u.composer, s.composer.pending.value)
      && u.trace == s.trace + [Confirmed(query.id)]
    ensures Missing(query) in s.answers && IsPending(s, query.id) ==>
      var u := Next(s, CheckAnswered(Missing(query)));
      && u.composer == Composer(s.composer.text, s.composer.attachments, None)
      && u.trace == s.trace + [Returned(query.id)]
    ensures !IsPending(s, query.id) ==> forall answer | answer == Found(query) || answer == Missing(query) ::
      Next(s, CheckAnswered(answer)).composer == s.composer && Next(s, CheckAnswered(answer)).trace == s.trace
  {
  }

  /** A reload gives up what was under way and keeps what the browser keeps; nothing
      that was sent is called back. */
  lemma ReloadMeans(s: System)
    ensures var u := Next(s, Reload);
      u.flow.Idle? && u.checks == {} && u.composer == s.composer && u.posts == s.posts && u.recorded == s.recorded
  {
  }
}
