/**
 * `pushBranch` (main.go) without its I/O: the options handed to go-git's
 * `Push` (basic auth with the fixed user name `git` and the token as
 * password, one refspec, the remote `origin`) and how its error is read
 * (no error: pushed; "already up to date": success too; anything else:
 * fatal).
 */
module BranchPush {
  import opened Optional
  import opened Strings

  const HeadsPrefix: string := "refs/heads/"
  const AuthUser: string := "git"
  const Origin: string := "origin"

  /** `refs/heads/<branch>:refs/heads/<branch>`. */
  function RefSpec(branch: string): (spec: string)
    ensures |spec| == 2 * (|HeadsPrefix| + |branch|) + 1
  {
    HeadsPrefix + branch + ":" + HeadsPrefix + branch
  }

  /**
   * The refspec's source and destination are one and the same ref: split on
   * its `:` it is exactly two copies of `refs/heads/<branch>`. Git refuses
   * `:` in branch names, so a real branch always satisfies the requirement.
   */
  lemma RefSpecSides(branch: string)
    requires ':' !in branch
    ensures Split(RefSpec(branch), ':') == [HeadsPrefix + branch, HeadsPrefix + branch]
  {
    var side := HeadsPrefix + branch;
    assert ':' !in HeadsPrefix;
    assert ':' !in side;
    assert RefSpec(branch) == Join([side, side], ':');
    SplitJoin([side, side], ':');
  }

  /** Different branches get different refspecs. */
  lemma RefSpecInjective(b1: string, b2: string)
    requires RefSpec(b1) == RefSpec(b2)
    ensures b1 == b2
  {
    assert |b1| == |b2|;
    assert b1 == RefSpec(b1)[|HeadsPrefix|..|HeadsPrefix| + |b1|];
  }

  datatype Auth = BasicAuth(username: string, password: string)
  datatype PushOptions = PushOptions(auth: Auth, refSpecs: seq<string>, remoteName: string)

  /**
   * The `git.PushOptions` built by `pushBranch`: basic auth as user `git`
   * with the token as password, the branch's one refspec, remote `origin`.
   * `fullName` takes no part in it.
   */
  function Options(token: string, branch: string): (o: PushOptions)
    ensures o.auth == BasicAuth(AuthUser, token) && o.auth.username == "git"
    ensures o.remoteName == "origin"
    ensures |o.refSpecs| == 1
    ensures ':' !in branch ==> Split(o.refSpecs[0], ':') == [HeadsPrefix + branch, HeadsPrefix + branch]
  {
    var spec := RefSpec(branch);
    assert ':' !in branch ==> Split(spec, ':') == [HeadsPrefix + branch, HeadsPrefix + branch] by {
      if ':' !in branch { RefSpecSides(branch); }
    }
    PushOptions(BasicAuth(AuthUser, token), [spec], Origin)
  }


  /** What `repo.Push` can return besides success. */
  datatype PushError = AlreadyUpToDate | Failed(reason: string)

  datatype PushStatus = Pushed | UpToDate | PushFailed(reason: string)

  /** How `pushBranch` reads `repo.Push`'s error. */
  function Status(err: Option<PushError>): (st: PushStatus)
    ensures st.PushFailed? <==> err.Some? && err.value.Failed?
    ensures st.PushFailed? ==> st.reason == err.value.reason
    ensures st == UpToDate <==> err == Some(AlreadyUpToDate)
  {
    match err
    case None => Pushed
    case Some(AlreadyUpToDate) => UpToDate
    case Some(Failed(reason)) => PushFailed(reason)
  }
}
