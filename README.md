# Restrict-channel-admin plugin, modelled in Dafny

A chat-server plugin that restricts posting. Its configuration holds a
comma-separated list of restricted channel names and a rejection message. The
`MessageWillBePosted` hook runs for every new post. When the post's channel is on
the list and the poster is not a channel admin, the hook discards the post and
sends the poster an ephemeral notice.

The project has three modules:

- `Wrappers` (wrappers.dfy): `Option` (a Go pointer that may be nil) and `Result`
  (a Go `(value, error)` pair).
- `GoStrings` (go_strings.dfy): the parts of Go's `strings` package the plugin
  uses. These are `Split` with a one-character separator, `TrimSpace` (with Go's
  exact `unicode.IsSpace` set), `ToLower` (ASCII letters only) and `Contains`.
  The plugin never calls `Join`; it is defined here as the inverse of `Split`, for
  the lemmas `JoinSplit`, `SplitJoin` and `ParseOfJoinedNames`. The module proves
  the facts the plugin's properties rest on: split and join are inverses, trimming
  leaves no edge white space, and `Contains` holds exactly when the substring
  occurs at some index.
- `RestrictChannel` (restrict_channel.dfy): the plugin itself.
  - `Settings` is the raw configuration. `Configuration` is the raw configuration
    plus the parsed name set (a `map[string]struct{}` in Go, a `set<string>` here).
  - `ParseRestrictedNames` is the parsing loop of `OnConfigurationChange`, proved
    against the specification function `ParsedNames`.
  - The class `Plugin` holds the `configuration` field. Its method
    `OnConfigurationChange` either keeps that field or replaces it wholesale.
  - `MessageWillBePosted` is the post gate, written as a function.
    - The three host lookups (channel, user, channel member) are the function-typed
      fields of a `Host` value. This keeps the ids each lookup is called with.
    - The hook's side effects are returned in an `Effects` record: lookups made,
      ephemeral posts sent, error and info log lines.
    - The nil-configuration case is ruled out by the parameter type: the gate
      takes a loaded `Configuration`, not an `Option`.

The hook's second return value is the whole raw `RestrictedChannelName` setting
(server/plugin.go:79), not the name of the channel that matched.

## Model

| member | source | states |
|---|---|---|
| `GoStrings.TrimSpace` | server/plugin.go:31 | the result has no leading or trailing white space |
| `GoStrings.TrimSpaceIsSlice` | server/plugin.go:31 | the trimmed string is the slice of the input between an all-space prefix and an all-space suffix |
| `GoStrings.TrimSpaceOfTrimmed` | server/plugin.go:31 | trimming a string with no edge white space returns it unchanged (so trimming is idempotent) |
| `GoStrings.TrimSpaceKeepsOnlyInput` | server/plugin.go:31 | every character of the trimmed string occurs in the input |
| `GoStrings.ToLower` | server/plugin.go:31 | same length, each character lowered, no upper-case letter left |
| `GoStrings.ToLowerKeepsTrimmed` | server/plugin.go:31 | lowering a trimmed string keeps it trimmed |
| `GoStrings.ToLowerOfLower` | server/plugin.go:31 | lowering a string with no upper-case letter returns it unchanged (so lowering is idempotent) |
| `GoStrings.Split` | server/plugin.go:28 | there is always at least one piece, and no piece contains the separator |
| `GoStrings.JoinSplit` | server/plugin.go:28 | joining the pieces of a split with the separator restores the string |
| `GoStrings.SplitJoin` | server/plugin.go:28 | splitting a join of one or more separator-free pieces gives back exactly those pieces |
| `GoStrings.Contains` | server/plugin.go:70 | true exactly when the substring occurs at some index of the string |
| `GoStrings.ContainsInfix` | server/plugin.go:70 | a role string with "channel_admin" anywhere in it, even inside a longer role, passes the admin test |
| `RestrictChannel.Normalize` | server/plugin.go:31 | a trimmed-and-lowered piece has no upper-case letter and no edge white space, and has no comma if the piece had none |
| `RestrictChannel.NamesInMembership` | server/plugin.go:29-35 | the loop over pieces collects a name exactly when it is non-empty and some piece normalizes to it |
| `RestrictChannel.ParseRestrictedNames` | server/plugin.go:28-35 | the loop's set equals `ParsedNames(raw)`; a string is in it exactly when it is non-empty and equals the trimmed, lowered form of some comma-separated piece |
| `RestrictChannel.ParsedNamesMembership` | server/plugin.go:28-35 | a string is a parsed name exactly when it is non-empty and equals `ToLower(TrimSpace(p))` for some comma-separated piece `p` |
| `RestrictChannel.ParsedNamesAreRestrictedNames` | server/plugin.go:31-33 | every parsed name is non-empty, lower-case, without edge white space and without a comma |
| `RestrictChannel.NormalizeOfRestrictedName` | server/plugin.go:31 | normalizing a name that is already in parsed form returns it unchanged |
| `RestrictChannel.ParsedNamesOfEmpty` | server/plugin.go:28-35 | the empty setting restricts no channel |
| `RestrictChannel.ParseOfJoinedNames` | server/plugin.go:28-35 | re-parsing any comma-joined listing of a parsed set gives the same set (parsing is idempotent) |
| `RestrictChannel.ParsedNamesExample` | server/plugin.go:28-35 | "General, random ,, VIP" parses to exactly {"general", "random", "vip"} |
| `RestrictChannel.RestrictingSettingIsNonEmpty` | server/plugin.go:28-35 | a setting that restricts any name is not the empty string |
| `RestrictChannel.RestrictedIffListed` | server/plugin.go:51 | a channel is restricted exactly when its lowered name is non-empty and some piece of the setting normalizes to it, so matching ignores case on both sides |
| `RestrictChannel.Plugin.OnConfigurationChange` | server/plugin.go:21-40 | a failed load returns its error and leaves `configuration` unchanged; a successful one returns no error and replaces `configuration` wholesale with the raw fields plus `ParsedNames` of the raw names; the invariant that the parsed set matches the raw setting is kept |
| `RestrictChannel.MessageWillBePosted` | server/plugin.go:41-84 | the post is kept as it is or discarded, never altered; the rejection string is empty or the raw setting, and non-empty only for a discarded post; at most one notice, only for a discarded post, to its author; lookups happen in order, each at most once, starting with the channel; at most one error is logged, never together with a notice |
| `RestrictChannel.ChannelLookupFailureFailsOpen` | server/plugin.go:44-48 | a failed channel lookup returns `(post, "")`, sends no notice, logs exactly the one "Failed to get channel" error and no info line, and looks up nothing else |
| `RestrictChannel.UnrestrictedChannelPasses` | server/plugin.go:50-54 | for a channel whose lowered name is not in the set, the result is `(post, "")` with no other lookup, notice or log, whatever the user and the membership |
| `RestrictChannel.UserLookupFailureFailsOpen` | server/plugin.go:57-61 | in a restricted channel, a failed user lookup returns `(post, "")` with no notice, exactly the one "Failed to get user" error and no info line, and the membership is never looked up |
| `RestrictChannel.MemberLookupFailureFailsClosed` | server/plugin.go:64-68 | in a restricted channel, a failed membership lookup returns `(nil, "")` after all three lookups, with no notice, exactly the one "Failed to get channel member" error and no info line |
| `RestrictChannel.ChannelAdminPasses` | server/plugin.go:70-83 | in a restricted channel, a member whose roles contain "channel_admin" gets `(post, "")` with no notice and no log |
| `RestrictChannel.NonAdminIsRejected` | server/plugin.go:72-79 | in a restricted channel, another member gets `(nil, RestrictedChannelName)`, exactly one notice to `post.UserId` with the post's channel id and the rejection message, no error, and one info line naming the user |
| `RestrictChannel.DiscardedIff` | server/plugin.go:44-83 | a post is discarded exactly when its channel is found and restricted, its author is found, and its membership is unreadable or lacks the admin role |
| `RestrictChannel.InfoIffNotice` | server/plugin.go:72-79 | an info line is logged exactly when a notice is sent |
| `RestrictChannel.ConfiguredPluginRejectionIffNotice` | server/plugin.go:51-79 | on the configuration a valid plugin holds, the rejection string is non-empty exactly when a notice is sent |
| `RestrictChannel.RejectionIffNotice` | server/plugin.go:72-79 | with a well-formed configuration, the rejection string is non-empty exactly when a notice is sent |
| `RestrictChannel.ChannelNameCaseIgnored` | server/plugin.go:51 | two channels whose names lower to the same string get the same outcome and effects |
| `RestrictChannel.ExampleNonAdminInGeneral` | server/plugin.go:51-79 | with "General, random ,, VIP" configured, a non-admin posting in "GENERAL" is rejected with the whole setting as the rejection string and one notice |

## Left out

- Go strings are UTF-8 byte strings. Here a string is a sequence of Unicode code points, so invalid UTF-8 is not modelled.
- GoStrings.ToLower: lowers only the ASCII letters A-Z. Go's `strings.ToLower` also lowers non-ASCII letters, so a non-ASCII channel name can compare differently in the model than in the plugin.
- `LoadPluginConfiguration` (server/plugin.go:23) is host code. Its outcome is the `Result<Settings, Error>` argument of `OnConfigurationChange`, and its decoding is not modelled.
- `GetChannel`, `GetUser` and `GetChannelMember` (server/plugin.go:44, 57, 64) are host code. They appear only as the arrow-typed fields of `Host`.
- `SendEphemeralPost`, `LogError` and `LogInfo` are host code. They appear only as entries of the `Effects` record. The log entries keep the message and the one key/value pair. The order between different kinds of effect is not recorded, for example that the notice is sent before the info line is logged.
- Posts carry only the three fields the hook reads or sets: user id, channel id and message. The unused `plugin.Context` argument is dropped.
- Plugin registration and the embedded `plugin.MattermostPlugin` (server/plugin.go:10-13) belong to the host framework.
- Concurrency between a reload and post handling is not modelled. The configuration pointer is assigned without synchronisation (server/plugin.go:38).
- The nil-pointer panic when a post arrives before any successful reload (server/plugin.go:51) is not modelled. `MessageWillBePosted` takes a loaded `Configuration`, so that state cannot be expressed.
