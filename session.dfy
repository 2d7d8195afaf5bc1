/**
 * `main` (main.go) as one pass from what the outside world answers to what
 * the program asks of it and the exit status it ends with. The token, the
 * repository, the three forms, go-git's push and the pull-request API are
 * parameters (`Replies`); `log.Fatal` becomes exit status 1, a runtime panic
 * exit status 2, and every run stops at its first failure.
 */
module Session {
  import opened Optional
  import opened Strings
  import opened GitHubUrl
  import opened Actions
  import opened BranchPush
  import opened CommitMessage

  const BaseBranch: string := "main"

  /** The `github.NewPullRequest` sent by `createPR`, with the repository it is sent to. */
  datatype PullRequest = PullRequest(
    owner: string, repo: string, title: string, body: string,
    head: string, base: string, maintainerCanModify: bool)

  /** What the run asks of the outside world, in order. */
  datatype Effect =
    | PushRequested(fullName: string, options: PushOptions)
    | PullRequestRequested(pr: PullRequest)
    | MessagePrinted(msg: string)

  /** The answers of the environment, repository, forms and services; `None` is a failure or an aborted form. */
  datatype Replies = Replies(
    token: string,                                 // GITHUB_TOKEN, "" when unset
    remoteUrls: Option<seq<string>>,               // origin's URLs; None: repo or remote unreadable
    action: Option<Action>,                        // push menu; None: form aborted
    head: Option<string>,                          // short name of HEAD; None: unreadable
    pushError: Option<PushError>,                  // what repo.Push returned
    prForm: Option<(string, string)>,              // title and body; None: form aborted
    prCreated: bool,                               // did the pull-request API call succeed
    commitForm: Option<(ConventionalCommit, bool)> // fields and confirmation; None: form aborted
  )

  datatype Run = Run(effects: seq<Effect>, exitCode: int)

  const FatalExit: int := 1
  const PanicExit: int := 2

  predicate HasPush(effects: seq<Effect>) {
    exists i :: 0 <= i < |effects| && effects[i].PushRequested?
  }

  predicate HasPullRequest(effects: seq<Effect>) {
    exists i :: 0 <= i < |effects| && effects[i].PullRequestRequested?
  }

  function Main(r: Replies): (run: Run)
    ensures run.exitCode == 0 || run.exitCode == FatalExit || run.exitCode == PanicExit
    ensures |run.effects| <= 3
    ensures run.exitCode == PanicExit ==> run.effects == []
    ensures r.token == "" ==> run == Run([], FatalExit)
    ensures r.action == Some(Cancel) ==> run.effects == [] && run.exitCode != 0
    ensures r.action == Some(Skip) ==> !HasPush(run.effects)
    ensures run.exitCode == 0 ==> HasPullRequest(run.effects) && r.prCreated && r.commitForm.Some?
  {
    if r.token == "" then Run([], FatalExit)
    else if r.remoteUrls.None? then Run([], FatalExit)
    else if |r.remoteUrls.value| == 0 then Run([], PanicExit)  // URLs[0]
    else
      var parsed := ParseGitHubURL(r.remoteUrls.value[0]);
      if parsed.OutOfRange? then Run([], PanicExit)            // parts[1]
      else if r.action.None? || r.head.None? then Run([], FatalExit)
      else
        var branch := r.head.value;
        match Dispatch(r.action.value, parsed.owner, parsed.name)
        case Exit(code) => Run([], code)
        case Continue(target) =>
          var pushed := if target.Some? then [PushRequested(target.value, Options(r.token, branch))] else [];
          if target.Some? && Status(r.pushError).PushFailed? then Run(pushed, FatalExit)
          else if r.prForm.None? then Run(pushed, FatalExit)
          else
            var pr := PullRequest(parsed.owner, parsed.name, r.prForm.value.0, r.prForm.value.1,
                                  branch, BaseBranch, true);
            var asked := pushed + [PullRequestRequested(pr)];
            assert asked[|asked| - 1].PullRequestRequested?;
            if !r.prCreated || r.commitForm.None? then Run(asked, FatalExit)
            else match FinalMessage(r.commitForm.value.0, r.commitForm.value.1)
              case Some(msg) =>
                var all := asked + [MessagePrinted(msg)];
                assert all[|asked| - 1] == asked[|asked| - 1];
                Run(all, 0)
              case None => Run(asked, 0)
  }

  /** Every step before the push menu's outcome went through. */
  predicate ReachesChoice(r: Replies) {
    r.token != "" && r.remoteUrls.Some? && |r.remoteUrls.value| > 0
    && ParseGitHubURL(r.remoteUrls.value[0]).Parsed?
    && r.action.Some? && r.head.Some?
  }

  /**
   * Cancel never pushes and exits with status 1, once the URL has parsed
   * (whether or not HEAD could be read, which fails with status 1 too).
   */
  lemma CancelExits(r: Replies)
    requires r.token != "" && r.remoteUrls.Some? && |r.remoteUrls.value| > 0
    requires ParseGitHubURL(r.remoteUrls.value[0]).Parsed?
    requires r.action == Some(Cancel)
    ensures Main(r) == Run([], 1)
  {
  }

  /** Skip never pushes and still goes on to the pull request. */
  lemma SkipGoesToPullRequest(r: Replies)
    requires ReachesChoice(r) && r.action == Some(Skip) && r.prForm.Some?
    ensures !HasPush(Main(r).effects)
    ensures |Main(r).effects| > 0 && Main(r).effects[0].PullRequestRequested?
    ensures Main(r).effects[0].pr.head == r.head.value
  {
  }

  /**
   * Push and Fork differ only in the name that is announced: both push the
   * same refspec to `origin` with the same credentials.
   */
  lemma PushAndForkShareRemote(r: Replies)
    requires ReachesChoice(r) && r.action == Some(Push)
    ensures var f := r.(action := Some(Fork));
      var pushRun, forkRun := Main(r).effects, Main(f).effects;
      |pushRun| > 0 && |forkRun| > 0
      && pushRun[0].PushRequested? && forkRun[0].PushRequested?
      && pushRun[0].options == forkRun[0].options
      && pushRun[0].options.remoteName == Origin
      && pushRun[0].options.refSpecs == [RefSpec(r.head.value)]
      && pushRun[0].fullName != forkRun[0].fullName
  {
    var p := ParseGitHubURL(r.remoteUrls.value[0]);
    assert |FullName(p.owner, p.name)| != |ForkName(p.owner, p.name)|;
  }

  /** "Already up to date" is not a failure: the run is the same as after a real push. */
  lemma UpToDateIsSuccess(r: Replies)
    ensures Main(r.(pushError := Some(AlreadyUpToDate))) == Main(r.(pushError := None))
  {
  }

  /**
   * When every collaborator succeeds the run exits with 0, having asked for
   * the push (unless skipped), then the pull request, then printed the
   * message exactly when confirmed; declining prints nothing and still
   * exits with 0.
   */
  lemma CompletedRunExitsZero(r: Replies)
    requires ReachesChoice(r) && r.action != Some(Cancel)
    requires r.pushError == None || r.pushError == Some(AlreadyUpToDate)
    requires r.prForm.Some? && r.prCreated && r.commitForm.Some?
    ensures Main(r).exitCode == 0
    ensures var e := Main(r).effects;
      var pushes := if r.action == Some(Skip) then 0 else 1;
      var confirmed := r.commitForm.value.1;
      |e| == pushes + 1 + (if confirmed then 1 else 0)
      && (pushes == 1 ==> e[0].PushRequested? && e[0].options == Options(r.token, r.head.value))
      && e[pushes].PullRequestRequested?
      && (confirmed ==> e[pushes + 1] == MessagePrinted(Format(r.commitForm.value.0)))
  {
  }

  /** Every pull request is from the current branch into `main`, open to maintainers' edits. */
  lemma PullRequestShape(r: Replies, i: int)
    requires 0 <= i < |Main(r).effects| && Main(r).effects[i].PullRequestRequested?
    ensures r.head.Some? && Main(r).effects[i].pr.head == r.head.value
    ensures Main(r).effects[i].pr.base == BaseBranch
    ensures Main(r).effects[i].pr.maintainerCanModify
  {
  }

  /** The push, if any, comes before the pull request, which comes before the message. */
  lemma EffectsInOrder(r: Replies, i: int, j: int)
    requires 0 <= i < j < |Main(r).effects|
    ensures !Main(r).effects[j].PushRequested?
    ensures !Main(r).effects[i].MessagePrinted?
  {
  }

  /** A completed run prints the message exactly when the user confirmed. */
  lemma MessageOnlyWhenConfirmed(r: Replies)
    requires Main(r).exitCode == 0
    ensures var e := Main(r).effects;
      (|e| > 0 && e[|e| - 1].MessagePrinted?) <==> r.commitForm.value.1
    ensures var e := Main(r).effects;
      |e| > 0 && e[|e| - 1].MessagePrinted? ==> e[|e| - 1].msg == Format(r.commitForm.value.0)
  {
  }

  /**
   * An origin URL of an unknown scheme is not an error: the run goes on
   * (pushing first, if chosen) and every pull request it asks for is sent
   * to an empty owner and repository.
   */
  lemma UnknownSchemeReachesApi(r: Replies, i: int)
    requires r.remoteUrls.Some? && |r.remoteUrls.value| > 0
    requires !HasPrefix(r.remoteUrls.value[0], SshScheme) && !HasPrefix(r.remoteUrls.value[0], HttpsScheme)
    requires 0 <= i < |Main(r).effects| && Main(r).effects[i].PullRequestRequested?
    ensures Main(r).effects[i].pr.owner == "" && Main(r).effects[i].pr.repo == ""
  {
    UnknownScheme(r.remoteUrls.value[0]);
  }

  /**
   * With an unknown-scheme URL, Push is announced as `/` and Fork as
   * `/-fork`: both are built from the empty owner and name.
   */
  lemma UnknownSchemePushTarget(r: Replies)
    requires r.token != "" && r.remoteUrls.Some? && |r.remoteUrls.value| > 0
    requires !HasPrefix(r.remoteUrls.value[0], SshScheme) && !HasPrefix(r.remoteUrls.value[0], HttpsScheme)
    requires r.action == Some(Push) || r.action == Some(Fork)
    requires r.head.Some?
    ensures Main(r).effects[0].PushRequested?
    ensures Main(r).effects[0].fullName == if r.action == Some(Push) then "/" else "/-fork"
  {
    UnknownScheme(r.remoteUrls.value[0]);
  }
}
