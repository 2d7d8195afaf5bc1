# huhgit core in Dafny

huhgit is a small interactive command-line helper. It pushes the current
branch (to `origin`, announced as the repository or as its fork), opens a
pull request into `main`, and finally prints a conventional-commit message
built from a form. Nearly all of `main.go` is calls into a terminal-form
library, go-git and the GitHub REST client. This project models the pure
logic between those calls and proves what it does:

- `strings.dfy`, module `Strings`: the Go `strings` functions the parser uses
  (`HasPrefix`, `HasSuffix`, `TrimPrefix`, `TrimSuffix`, `Split` on one
  character). It also has `Join`, a reference inverse of `Split`.
- `github_url.dfy`, module `GitHubUrl`: `parseGitHubURL`. The Go runtime
  panic on `parts[1]` is the explicit result `OutOfRange`.
- `commit_message.dfy`, module `CommitMessage`: the conventional-commit
  `Sprintf` and its gating on the confirmation. `Parse` is a reference
  reader that the format is proved to round-trip with.
- `push.dfy`, module `BranchPush`: the refspec, the push options and how
  `pushBranch` reads go-git's error.
- `action.dfy`, module `Actions`: the `Action` enumeration, its `iota`
  numbering, the menu and the dispatch `switch`.
- `session.dfy`, module `Session`: `main` as a function. It maps the
  collaborators' answers (`Replies`) to the requests the program makes
  (`Effect`s) and its exit status. `log.Fatal` and `os.Exit(1)` give status
  1. A Go runtime panic gives status 2.
- `option.dfy`, module `Optional`: the usual `Option` type.

Behaviour a reader may not expect:

- Only `git@github.com:` and `https://github.com/` URLs yield a sensible
  owner and name. A `git@` URL of another host keeps `git@host:` in the
  owner. An `https://` URL of another host always gives `("https:", "")`.
- A GitHub URL with no `/` after the host (`git@github.com:acme`) does not
  yield empty strings: the program panics.
- The `owner/name` and `owner/name-fork` destinations are only printed by
  `pushBranch`. The push always goes to the remote `origin`, with the same
  refspec and credentials for both choices.
- A URL of unknown scheme is not an error. Push is announced as `/` (Fork
  as `/-fork`), the push still goes to `origin`, and the pull request is
  then sent to an empty owner and repository.

## Model

| member | source | states |
|---|---|---|
| `Strings.HasPrefix` | main.go:184 | `s` starts with `p` exactly when `p` is no longer than `s` and they agree on each of `p`'s positions |
| `Strings.HasSuffix` | main.go:183 | `s` ends with `p` exactly when its last `|p|` characters are those of `p` |
| `Strings.TrimSuffix` | main.go:183 | one copy of the suffix is removed when present; otherwise the string is unchanged |
| `Strings.TrimPrefix` | main.go:185 | one copy of the prefix is removed when present; otherwise the string is unchanged |
| `Strings.Split` | main.go:185 | there is one more piece than separators, and no piece contains the separator |
| `Strings.JoinSplit` | main.go:185 | splitting loses nothing: joining the pieces with the separator gives the input back |
| `Strings.SplitJoin` | main.go:185 | split inverts join for pieces that do not contain the separator |
| `Strings.SplitHead` | main.go:186 | the first piece is the longest separator-free prefix of the input |
| `GitHubUrl.FirstTwo` | main.go:186 | `parts[0], parts[1]`: panics (`OutOfRange`) exactly when the split gave a single piece, else pieces 0 and 1 |
| `GitHubUrl.ParseGitHubURL` | main.go:182-192 | only a URL starting with `git@` or `https://` can hit the `parts[1]` panic |
| `GitHubUrl.RecognisedUrl` | main.go:182-192 | a GitHub URL whose remainder after trimming is `O/N` or `O/N/...` yields exactly `(O, N)` |
| `GitHubUrl.SshForm` | main.go:184-186 | `git@github.com:O/N` with or without `.git` yields `(O, N)` when O and N contain no `/` |
| `GitHubUrl.HttpsForm` | main.go:187-189 | `https://github.com/O/N` with or without `.git` yields `(O, N)` when O and N contain no `/` |
| `GitHubUrl.ExtraSegmentsIgnored` | main.go:185-189 | segments after the name are ignored in both forms |
| `GitHubUrl.GitSuffixOptional` | main.go:183 | appending `.git` to a URL that does not already end in it does not change the result |
| `GitHubUrl.OnlyOneGitSuffixRemoved` | main.go:183 | of two trailing `.git`, only one is removed; the other stays on the name |
| `GitHubUrl.TrimAfter` | main.go:183 | trimming `.git` never reaches back past a `/`, `:` or `@` |
| `GitHubUrl.UnknownScheme` | main.go:190-191 | a URL starting with neither `git@` nor `https://` yields `("", "")` |
| `GitHubUrl.PanicsWithoutSlash` | main.go:185-189 | a GitHub URL panics exactly when its trimmed remainder has no `/` |
| `GitHubUrl.ForeignSshHost` | main.go:184-186 | for a `git@` URL of another host, the owner keeps the `git@` prefix |
| `GitHubUrl.ForeignSshPanics` | main.go:184-186 | a `git@` URL of another host panics exactly when it has no `/` once `.git` is trimmed |
| `GitHubUrl.ForeignSshForm` | main.go:184-186 | `git@host:O/N` of another host yields `(git@host:O, N)` |
| `GitHubUrl.ForeignHttpsHost` | main.go:187-189 | every `https://` URL of another host yields `("https:", "")` |
| `GitHubUrl.SshExample` | main.go:182-186 | `git@github.com:acme/widget.git` yields `("acme", "widget")` |
| `GitHubUrl.HttpsExample` | main.go:187-189 | `https://github.com/acme/widget` yields `("acme", "widget")` |
| `GitHubUrl.GitLabSshExample` | main.go:184-186 | `git@gitlab.com:a/b` yields `("git@gitlab.com:a", "b")` |
| `GitHubUrl.MissingNameExample` | main.go:185-186 | `git@github.com:acme` panics on `parts[1]` |
| `CommitMessage.Format` | main.go:132 | the message is six characters longer than its four fields together |
| `CommitMessage.FormatParse` | main.go:132 | a formatted message reads back to its fields when the type has no `(`, the scope no `)` and the summary no line break |
| `CommitMessage.ParseFormat` | main.go:132 | every message that reads back is exactly the format of the fields read |
| `CommitMessage.FinalMessage` | main.go:131-135 | a message exists exactly when confirmed, and then it is the formatted fields, whatever they contain |
| `CommitMessage.FinalMessageReadsBack` | main.go:131-135 | a confirmed message reads back to its fields when the type has no `(`, the scope no `)` and the summary no line break |
| `CommitMessage.Example` | main.go:132 | `feat`, `api`, `add endpoint`, `details` give `feat(api): add endpoint\n\ndetails` |
| `BranchPush.RefSpec` | main.go:148 | the refspec is twice `refs/heads/<branch>` plus one separator long |
| `BranchPush.RefSpecSides` | main.go:148 | split on `:`, the refspec is exactly source = destination = `refs/heads/<branch>` |
| `BranchPush.RefSpecInjective` | main.go:148 | different branches give different refspecs |
| `BranchPush.Options` | main.go:139-152 | basic auth as user `git` with the token as password, remote `origin`, one refspec whose source and destination are both `refs/heads/<branch>` |
| `BranchPush.Status` | main.go:153-160 | the push is fatal exactly when go-git reports an error other than "already up to date"; "already up to date" is success |
| `Actions.Ordinal` | main.go:19-26 | each constant has an `iota` value below 4 |
| `Actions.FromOrdinal` | main.go:19-26 | an `int` names a constant exactly when it is in 0..3 |
| `Actions.OrdinalRoundTrip` | main.go:19-26 | numbering and lookup are inverse bijections between the constants and 0..3 |
| `Actions.FullName` | main.go:60 | the owner, a `/`, then the name |
| `Actions.ForkName` | main.go:87 | the full name with `-fork` appended, so never the full name itself |
| `Actions.Menu` | main.go:55-67 | the menu offers four options, each action exactly once |
| `Actions.Dispatch` | main.go:79-90 | exactly Cancel exits, with status 1; of the others, exactly Skip pushes nothing |
| `Actions.PushTargets` | main.go:83-87 | Push targets `owner/name`; Fork targets `owner/name-fork` |
| `Actions.DispatchInjective` | main.go:79-90 | distinct choices lead to distinct outcomes |
| `Session.Main` | main.go:31-136 | exit status is 0, 1 or 2; a panic requests nothing; no token means exit 1 before anything else; Cancel requests nothing and fails; Skip never pushes; status 0 means the pull request was created and the commit form completed |
| `Session.CancelExits` | main.go:73-82 | once the URL has parsed, Cancel requests nothing and exits with 1, whether or not HEAD could be read |
| `Session.CompletedRunExitsZero` | main.go:79-135 | when every collaborator succeeds the run exits with 0, having asked for the push unless skipped, then the pull request, then printing the message exactly when confirmed |
| `Session.SkipGoesToPullRequest` | main.go:88-108 | Skip pushes nothing, and the first request is the pull request from the current branch |
| `Session.PushAndForkShareRemote` | main.go:138-152 | Push and Fork push the same refspec to `origin` with the same options; only the announced name differs |
| `Session.UpToDateIsSuccess` | main.go:153-156 | a run whose push is already up to date is identical to one whose push succeeded |
| `Session.PullRequestShape` | main.go:163-175 | every pull request goes from the current branch into `main` and lets maintainers modify it |
| `Session.EffectsInOrder` | main.go:79-135 | a push comes first, and a printed message comes last |
| `Session.MessageOnlyWhenConfirmed` | main.go:131-135 | a completed run prints the message exactly when the user confirmed, and it is the formatted fields |
| `Session.UnknownSchemePushTarget` | main.go:49-87 | with an origin URL of unknown scheme, Push is announced as `/` and Fork as `/-fork` |
| `Session.UnknownSchemeReachesApi` | main.go:48-108 | an origin URL of unknown scheme is no error: whatever the menu choice, every pull request the run asks for goes to an empty owner and repository |

## Left out

- Terminal forms, the spinner and lipgloss styling. The forms are modelled only by their answers (`Replies`); the commit-type suggestions list is a UI hint that constrains nothing.
- Progress and status lines printed to standard output ("Pushing branch...", "Push successful!", "Cancelled.", the pull request's URL). Only the final commit message is modelled as an output.
- Opening the repository, reading `origin` and `HEAD`, `repo.Push` and the GitHub API call. Their results are parameters of `Session.Main`; the reasons they fail are not distinguished.
- Reading `GITHUB_TOKEN` and the working directory. The token is a parameter; the ignored `os.Getwd` error is not modelled.
- Fatal-error log text: every fatal error is only exit status 1, as `log.Fatal` gives, and a runtime panic only exit status 2.
- Byte semantics: strings are sequences of characters, whereas Go's `strings` functions work on bytes. Every pattern the parser matches (`.git`, `git@`, `https://`, the two host prefixes, `/`) is ASCII, so the results agree; lengths such as the commit message's are counted in characters, not bytes.
