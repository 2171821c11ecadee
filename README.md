# follow-for-follow, modelled in Dafny

The program reconciles a GitHub account's followers and followed accounts.
It loads an access token. It fetches one page of followers and one page of
followed accounts. It follows back every follower that is not followed yet,
except the bot account `sphinxzerd`. Then it unfollows every followed account
that does not follow back, except four exempt accounts (`BenjaminX`,
`academind`, `angelabauer`, `mschwarzmueller`).

The model covers the token check and the reciprocity computation of `main`.
The calls to `follow_user` and `unfollow_user` become a list of actions
(`Follow(user)`, `Unfollow(user)`) in the order the program makes them.

Modules, one per component:

- `Wrappers`: `Option` and `Result`.
- `StringOrder`: Go's string order and `sort.Strings`. Go compares strings
  byte by byte. Here strings are sequences of code points. UTF-8 keeps
  code-point order, so the two orders agree. `Sort` is an insertion sort.
  `SortIsCanonical` proves that every sorted permutation equals `Sort`, so the
  model does not depend on the algorithm Go uses.
- `Credentials`: `loadToken`. It covers `unicode.IsSpace`, `strings.TrimSpace`,
  the empty-token error, and the file-then-environment fallback. The outcome
  of reading the file is a parameter.
- `Reciprocity`: the lists that `main` computes, written as functions on
  lists, and the lemmas about them. `Without(xs, drop)` keeps the entries of
  `xs` that are not in `drop`, in order and with their multiplicity.
- `FollowForFollow`: the loops of `main` as methods. `Contains` is the linear
  search with a found flag and `break`. The two diff loops build their lists
  by appending. The unfollow loop skips exempt entries with `continue`.
  `Reconcile`, `RunAsWritten` and `Run` put the loops together.

Points where the code's behaviour is easy to misread:

- `GH_PAT` is used only when the key file cannot be read. A readable key file
  that holds only white space fails, even when `GH_PAT` is set. `LoadToken`
  models this.
- The lists are slices, not sets; duplicates keep their multiplicity.
- The errors of the list requests are discarded (see Findings).
- `fetch_user_list` never looks at the response status (lines 41-62). An
  HTTP error status whose body does not decode to a list of users reaches
  `main` as an empty list with no error. In the model that is a successful
  fetch of `[]`, so neither `RunAsWritten` nor `Run` stops on it.

## Model

| member | source | states |
|---|---|---|
| `StringOrder.LeReflexive` | followforfollow.go:132-133 | every string sorts no later than itself |
| `StringOrder.LeAntisymmetric` | followforfollow.go:132-133 | two strings that each sort no later than the other are equal |
| `StringOrder.LeTransitive` | followforfollow.go:132-133 | the string order is transitive |
| `StringOrder.LeTotal` | followforfollow.go:132-133 | any two strings are comparable |
| `StringOrder.Sort` | followforfollow.go:132-133 | `sort.Strings`: the result is ascending and a permutation of the input |
| `StringOrder.SortedUnique` | followforfollow.go:132-133 | two ascending lists holding the same names the same number of times are equal |
| `StringOrder.SortIsCanonical` | followforfollow.go:132-133 | any ascending permutation of a list equals `Sort` of it, whatever the sorting algorithm |
| `StringOrder.SortSameElements` | followforfollow.go:132-133 | sorting keeps the length and the set of names |
| `Credentials.SkipLeading` | followforfollow.go:20 | the scan from the front stops at the first character that is not white space, and everything it skips is white space |
| `Credentials.SkipTrailing` | followforfollow.go:20 | the scan from the back stops after the last character that is not white space, and everything it skips is white space |
| `Credentials.TrimSpace` | followforfollow.go:20 | `strings.TrimSpace`: the result is a slice of the input with only white space around it and no white space at either end; it is empty exactly when the input is all white space |
| `Credentials.TrimEmptyIffBlank` | followforfollow.go:20-21 | a trim is empty exactly when the whole input is white space |
| `Credentials.TrimmedIsTrim` | followforfollow.go:20 | a string with no white space at either end is its own trim |
| `Credentials.TrimSpaceUnique` | followforfollow.go:20 | the contract of `TrimSpace` determines its result |
| `Credentials.TrimSpaceIdempotent` | followforfollow.go:20 | trimming twice equals trimming once |
| `Credentials.CheckToken` | followforfollow.go:20-24 | the check fails exactly when the raw value is all white space; on success the token is the trimmed value, non-empty, with no white space at either end |
| `Credentials.LoadToken` | followforfollow.go:15-24 | a readable key file decides alone (fails exactly when it is blank, else yields its trimmed contents); when the file cannot be read, `GH_PAT` decides the same way |
| `Reciprocity.WithoutCount` | followforfollow.go:145-147 | filtering keeps every entry that is not dropped with its multiplicity and removes every dropped entry |
| `Reciprocity.WithoutMembers` | followforfollow.go:145-147 | a name is in the filtered list exactly when it is in the input and not dropped |
| `Reciprocity.WithoutAppend` | followforfollow.go:147 | filtering a concatenation is concatenating the filtered parts, which is what appending in a loop builds |
| `Reciprocity.WithoutWithout` | followforfollow.go:176-182 | filtering twice equals filtering once by both drop sets |
| `Reciprocity.WithoutNothing` | followforfollow.go:162-174 | filtering by nothing changes nothing |
| `Reciprocity.WithoutIsSubsequence` | followforfollow.go:137-148 | the filtered list is the input with some entries deleted and the rest in order |
| `Reciprocity.SubsequenceElements` | followforfollow.go:137-148 | a subsequence is no longer than its list and holds only its names |
| `Reciprocity.SubsequenceSorted` | followforfollow.go:132-149 | a subsequence of an ascending list is ascending |
| `Reciprocity.FollowBackMembers` | followforfollow.go:136-149 | a follower is in the follow-back list exactly when it is not followed and is not `sphinxzerd`, as many times as it is a follower |
| `Reciprocity.BotNeverFollowedBack` | followforfollow.go:145 | `sphinxzerd` is never in the follow-back list |
| `Reciprocity.FollowBackOrdered` | followforfollow.go:132-149 | the follow-back list is a subsequence of the followers, no longer than them, and ascending when they are |
| `Reciprocity.UnfollowMembers` | followforfollow.go:160-174 | a followed account is in the unfollow list exactly when it is not a follower, as many times as it is followed |
| `Reciprocity.UnfollowOrdered` | followforfollow.go:133-174 | the unfollow list is a subsequence of the followed accounts, no longer than them, and ascending when they are |
| `Reciprocity.UnfollowEdgeCases` | followforfollow.go:162-174 | with no followers the unfollow list is the whole following list; with nothing followed it is empty |
| `Reciprocity.FollowBackAndUnfollowDisjoint` | followforfollow.go:136-174 | no name is in both the follow-back list and the unfollow list |
| `Reciprocity.UnfollowTargetsMembers` | followforfollow.go:176-187 | an entry of the unfollow list is unfollowed exactly when it is not exempt, with its multiplicity and in order |
| `Reciprocity.SetAlgebra` | followforfollow.go:136-174 | as sets, follow-back is followers minus following minus the bot, and unfollow is following minus followers |
| `Reciprocity.ExemptingMore` | followforfollow.go:176-182 | exempting one more account removes only that account's entries and never lengthens the list |
| `StringOrder.Le` | followforfollow.go:132-133 | Go's `<` on strings as `sort.Strings` uses it; a prefix sorts first; its order properties are the `Le*` rows |
| `Credentials.IsSpace` | followforfollow.go:20 | `unicode.IsSpace`, the white space `strings.TrimSpace` cuts; used by the `Trim*` and `Skip*` rows |
| `Reciprocity.Without` | followforfollow.go:137-148 | the filter-and-append pattern of the diff loops; never longer than its input; its contents and order are the `Without*` rows |
| `Reciprocity.FollowBackList` | followforfollow.go:136-149 | the follow-back list, no longer than the followers; its other properties are `FollowBackMembers`, `BotNeverFollowedBack`, `FollowBackOrdered` |
| `Reciprocity.UnfollowList` | followforfollow.go:160-174 | the unfollow list, no longer than the following list; its other properties are `UnfollowMembers`, `UnfollowOrdered`, `UnfollowEdgeCases` |
| `Reciprocity.UnfollowTargets` | followforfollow.go:176-187 | the entries of the unfollow list that get a call, no more than the list has; its other properties are `UnfollowTargetsMembers`, `ExemptingMore` |
| `FollowForFollow.Plan` | followforfollow.go:132-187 | the calls a run makes on two fetched lists, never more than the lists have entries together; its other properties are the `Plan*` rows |
| `FollowForFollow.OrEmpty` | followforfollow.go:126-127 | a failed list request read as an empty list, as `main` does when it discards the error |
| `FollowForFollow.Contains` | followforfollow.go:138-144 | the flag search (also at lines 163-169, and `slices.Contains` at line 178) answers true exactly when the name is in the list |
| `FollowForFollow.ComputeFollowBack` | followforfollow.go:136-149 | the loop builds exactly the follow-back list |
| `FollowForFollow.FollowAll` | followforfollow.go:152-157 | one follow call per follow-back entry, in order |
| `FollowForFollow.ComputeUnfollow` | followforfollow.go:160-174 | the loop builds exactly the unfollow list |
| `FollowForFollow.UnfollowAll` | followforfollow.go:176-187 | one unfollow call per non-exempt entry, in order; exempt entries are skipped |
| `FollowForFollow.Reconcile` | followforfollow.go:132-187 | the calls made from two fetched lists are the calls of `Plan` |
| `FollowForFollow.RunAsWritten` | followforfollow.go:120-127 | a token that cannot be loaded stops the run with no call; otherwise failed list requests read as empty lists and the calls are those of `Plan` |
| `FollowForFollow.FailedFetchUnfollowsFollower` | followforfollow.go:126-127 | a follower is unfollowed when the followers request fails |
| `FollowForFollow.Run` | followforfollow.go:120-127 | corrected run: no call at all when the token cannot be loaded or either list request fails in transport (a `FetchError`), else the calls of `Plan` on the fetched lists |
| `FollowForFollow.PlanFollows` | followforfollow.go:136-157 | an account gets a follow call exactly when it follows, is not followed, and is not `sphinxzerd` |
| `FollowForFollow.PlanUnfollows` | followforfollow.go:159-187 | an account gets an unfollow call exactly when it is followed, does not follow, and is not exempt |
| `FollowForFollow.PlanNeverBoth` | followforfollow.go:136-187 | no account gets both a follow and an unfollow call |
| `FollowForFollow.PlanOrder` | followforfollow.go:132-187 | all follow calls come before all unfollow calls, and each kind goes in ascending order of name |
| `FollowForFollow.PlanIgnoresFetchOrder` | followforfollow.go:132-133 | the calls depend only on which names the fetched lists hold and how often, not on their order |

## Left out

- HTTP: building the requests, the transport, headers and status codes in `fetch_user_list`, `follow_user`, `unfollow_user` and `GetGitHubClient` (lines 32-114). This is network I/O. A list request is a parameter: a list of names or a failure. A follow or unfollow call is an action in the output list. Its outcome (204 or another status) is only printed and changes nothing after it.
- A transport error of a follow or unfollow call makes the program panic (lines 153-156, 183-186). The model does not stop the action list there. Process aborts are not modelled.
- JSON decoding and the `login` type assertion (lines 52-60). A body that does not decode gives an empty list, which the model covers as a list parameter. A record without a string `login` panics, and that is not modelled.
- Reading the key file and the environment (lines 16-19). Their outcomes are parameters of `LoadToken`.
- Console output (lines 80-82, 102-104, 129-130, 146, 161, 171, 180) and `log.Fatal` (line 122). The fatal exit is the `Failure` result.
- HTTP error statuses on the list requests (lines 41-62 never check them): such a response reaches `main` as an empty list, which the model covers as a fetch of `[]`. `Run` treats only transport and read failures (`FetchError`) as fatal, not an error status.
- Only the first page of at most 100 entries is fetched. The fetched lists are taken as given.
- Go strings are byte strings. The model uses sequences of code points, so invalid UTF-8 in a token or a login name is not modelled.
- `StringOrder.Sort`: Go's `sort.Strings` uses a different algorithm. `SortIsCanonical` shows that the result is the same.

## Findings

| source | as written | input that shows it | evidently intended | confidence | as-written member | corrected member |
|---|---|---|---|---|---|---|
| followforfollow.go:126-127 | the errors of both list requests are discarded, and a failed request becomes an empty list | followers request fails; following is `["octocat"]`; "octocat" follows back, yet it gets an unfollow call | a failed list request ends the run before any call, like a missing token; the correction covers transport and read failures only, since an HTTP error status already reaches `main` as an empty list with no error | medium, not executed | `FollowForFollow.RunAsWritten`, `FollowForFollow.FailedFetchUnfollowsFollower` | `FollowForFollow.Run` |
