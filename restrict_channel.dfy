/** The restrict-channel-admin plugin: a configuration of restricted channel names,
    and a hook that discards posts to a restricted channel unless the poster is a
    channel admin. */
module RestrictChannel {
  import opened Wrappers
  import opened GoStrings

  // ---------------------------------------------------------------------
  // Configuration
  // ---------------------------------------------------------------------

  /** The raw settings the host decodes from the plugin's configuration. */
  datatype Settings = Settings(restrictedChannelName: string, rejectionMessage: string)

  /** The active configuration: the raw settings plus the parsed set of restricted names
      (a `map[string]struct{}` in Go). */
  datatype Configuration = Configuration(
    restrictedChannelName: string,
    rejectionMessage: string,
    parsedNames: set<string>)

  /** An error reported by the host. */
  datatype Error = Error(message: string)

  /** The separator between names in the raw setting. */
  const NameSeparator: char := ','

  /** One piece of the raw setting, trimmed and lowered. */
  function Normalize(piece: string): (n: string)
    ensures IsLower(n) && IsTrimmed(n)
    ensures NameSeparator !in piece ==> NameSeparator !in n
  {
    var t := TrimSpace(piece);
    ToLowerKeepsTrimmed(t);
    TrimSpaceKeepsOnlyInput(piece);
    var n := ToLower(t);
    n
  }

  /** A name as the parsed set holds it: non-empty, lower-case, no edge white space. */
  predicate IsRestrictedName(n: string) {
    n != "" && IsLower(n) && IsTrimmed(n)
  }

  /** The names a sequence of pieces contributes: each piece trimmed and lowered,
      empty results dropped. */
  ghost function NamesIn(pieces: seq<string>): set<string>
  {
    if pieces == [] then {}
    else
      var n := Normalize(pieces[|pieces| - 1]);
      NamesIn(pieces[..|pieces| - 1]) + (if n != "" then {n} else {})
  }

  /** The restricted names a raw setting denotes. */
  ghost function ParsedNames(raw: string): set<string> {
    NamesIn(Split(raw, NameSeparator))
  }

  /** A configuration whose parsed set is the one its raw setting denotes. */
  ghost predicate WellFormed(cfg: Configuration) {
    cfg.parsedNames == ParsedNames(cfg.restrictedChannelName)
  }

  /** A name is contributed by a sequence of pieces exactly when it is non-empty and
      some piece normalizes to it. */
  lemma {:induction false} NamesInMembership(pieces: seq<string>, n: string)
    ensures n in NamesIn(pieces) <==> n != "" && exists p :: p in pieces && n == Normalize(p)
  {
    if pieces != [] {
      NamesInMembership(pieces[..|pieces| - 1], n);
    }
  }

  /** One more piece adds its normalized form, unless that is empty. */
  lemma NamesInSnoc(pieces: seq<string>, i: int)
    requires 0 <= i < |pieces|
    ensures NamesIn(pieces[..i + 1]) ==
      NamesIn(pieces[..i]) + (if Normalize(pieces[i]) != "" then {Normalize(pieces[i])} else {})
  {
    assert pieces[..i + 1][..i] == pieces[..i];
  }

  /** A solver hint with no modelling content: the whole-length prefix of a sequence is the sequence. */
  lemma PrefixOfWhole(pieces: seq<string>)
    ensures pieces[..|pieces|] == pieces
  {
  }

  /** The parsing loop of OnConfigurationChange: split the raw setting on commas,
      trim and lower each piece, and collect the non-empty results. */
  method ParseRestrictedNames(raw: string) returns (parsed: set<string>)
    ensures parsed == ParsedNames(raw)
    ensures forall n :: n in parsed <==>
      n != "" && exists p :: p in Split(raw, NameSeparator) && n == Normalize(p)
  {
    var names := Split(raw, NameSeparator);
    parsed := {};
    for i := 0 to |names|
      invariant parsed == NamesIn(names[..i])
    {
      var trimmed := ToLower(TrimSpace(names[i]));
      NamesInSnoc(names, i);
      if trimmed != "" {
        parsed := parsed + {trimmed};
      }
    }
    PrefixOfWhole(names);
    forall n ensures n in parsed <==> n != "" && exists p :: p in names && n == Normalize(p) {
      NamesInMembership(names, n);
    }
  }

  /** The plugin object: the configuration it last loaded successfully, `None` before
      the first load. */
  class Plugin {
    var configuration: Option<Configuration>

    ghost predicate Valid()
      reads this
    {
      configuration.Some? ==> WellFormed(configuration.value)
    }

    constructor ()
      ensures Valid() && configuration == None
    {
      configuration := None;
    }

    /** Reloads the configuration. `loaded` is what the host's configuration loader
        produced. On failure the error is returned and the old configuration stays;
        on success the configuration is replaced wholesale. */
    method OnConfigurationChange(loaded: Result<Settings, Error>) returns (err: Option<Error>)
      requires Valid()
      modifies this
      ensures Valid()
      ensures loaded.Failure? ==> err == Some(loaded.error) && configuration == old(configuration)
      ensures loaded.Success? ==> err == None && configuration == Some(Configuration(
        loaded.value.restrictedChannelName,
        loaded.value.rejectionMessage,
        ParsedNames(loaded.value.restrictedChannelName)))
    {
      if loaded.Failure? {
        return Some(loaded.error);
      }
      var settings := loaded.value;
      var parsed := ParseRestrictedNames(settings.restrictedChannelName);
      configuration := Some(Configuration(settings.restrictedChannelName, settings.rejectionMessage, parsed));
      err := None;
    }
  }

  // ---------------------------------------------------------------------
  // Properties of the parsed set
  // ---------------------------------------------------------------------

  /** A string is a parsed name exactly when it is non-empty and some comma-separated
      piece of the raw setting, trimmed and lowered, equals it. */
  lemma ParsedNamesMembership(raw: string, n: string)
    ensures n in ParsedNames(raw) <==>
      n != "" && exists p :: p in Split(raw, NameSeparator) && n == Normalize(p)
  {
    NamesInMembership(Split(raw, NameSeparator), n);
  }

  /** Every parsed name is non-empty, lower-case, without edge white space, and
      without a comma. */
  lemma ParsedNamesAreRestrictedNames(raw: string, n: string)
    requires n in ParsedNames(raw)
    ensures IsRestrictedName(n) && NameSeparator !in n
  {
    ParsedNamesMembership(raw, n);
    var p :| p in Split(raw, NameSeparator) && n == Normalize(p);
  }

  /** Normalizing a name already in canonical form leaves it as it is. */
  lemma NormalizeOfRestrictedName(n: string)
    requires IsRestrictedName(n)
    ensures Normalize(n) == n
  {
    TrimSpaceOfTrimmed(n);
    ToLowerOfLower(n);
  }

  /** The empty setting restricts no channel. */
  lemma ParsedNamesOfEmpty()
    ensures ParsedNames("") == {}
  {
    assert Split("", NameSeparator) == [""];
    assert TrimSpace("") == "";
    assert NamesIn([""]) == NamesIn([]) + {};
  }

  /** Re-parsing any comma-joined listing of a parsed set gives the same set. */
  lemma ParseOfJoinedNames(raw: string, names: seq<string>)
    requires forall n :: n in names <==> n in ParsedNames(raw)
    ensures ParsedNames(Join(names, NameSeparator)) == ParsedNames(raw)
  {
    forall n | n in names ensures IsRestrictedName(n) && NameSeparator !in n && Normalize(n) == n {
      ParsedNamesAreRestrictedNames(raw, n);
      NormalizeOfRestrictedName(n);
    }
    if names == [] {
      ParsedNamesOfEmpty();
    } else {
      SplitJoin(names, NameSeparator);
      var joined := Join(names, NameSeparator);
      forall n ensures n in ParsedNames(joined) <==> n in names {
        ParsedNamesMembership(joined, n);
        if n in names {
          assert n == Normalize(n);
        }
      }
    }
  }

  // How the pieces of the example setting below are trimmed and lowered, one step
  // per lemma (each concrete evaluation is cheap on its own).

  lemma TrimSpaceGeneral()
    ensures TrimSpace("General") == "General"
  {
    TrimSpaceOfTrimmed("General");
  }

  lemma ToLowerGeneral()
    ensures ToLower("General") == "general"
  {
  }

  lemma TrimSpaceRandom()
    ensures TrimSpace(" random ") == "random"
  {
    var s := " random ";
    assert TrimLeftSpace(s) == "random " by {
      assert s[0] == ' ' && s[1..] == "random ";
    }
    var t := "random ";
    assert t[|t| - 1] == ' ' && t[..|t| - 1] == "random";
    assert TrimRightSpace("random") == "random" by {
      assert "random"[5] == 'm';
    }
  }

  lemma ToLowerRandom()
    ensures ToLower("random") == "random"
  {
    ToLowerOfLower("random");
  }

  lemma TrimSpaceVip()
    ensures TrimSpace(" VIP") == "VIP"
  {
    var v := " VIP";
    assert TrimLeftSpace(v) == "VIP" by {
      assert v[0] == ' ' && v[1..] == "VIP";
    }
    assert TrimRightSpace("VIP") == "VIP" by {
      assert "VIP"[2] == 'P';
    }
  }

  lemma ToLowerCapitalGeneral()
    ensures ToLower("GENERAL") == "general"
  {
  }

  lemma ToLowerVip()
    ensures ToLower("VIP") == "vip"
  {
  }

  /** The pieces of the example setting contribute exactly "general", "random" and "vip". */
  lemma NamesInExamplePieces()
    ensures NamesIn(["General", " random ", "", " VIP"]) == {"general", "random", "vip"}
  {
    var pieces := ["General", " random ", "", " VIP"];
    assert NamesIn(pieces[..0]) == {};
    TrimSpaceGeneral();
    ToLowerGeneral();
    NamesInSnoc(pieces, 0);
    TrimSpaceRandom();
    ToLowerRandom();
    NamesInSnoc(pieces, 1);
    assert TrimSpace("") == "";
    NamesInSnoc(pieces, 2);
    TrimSpaceVip();
    ToLowerVip();
    NamesInSnoc(pieces, 3);
    PrefixOfWhole(pieces);
  }

  /** The example setting "General, random ,, VIP" restricts exactly
      "general", "random" and "vip". */
  lemma ParsedNamesExample()
    ensures ParsedNames("General, random ,, VIP") == {"general", "random", "vip"}
  {
    var pieces := ["General", " random ", "", " VIP"];
    assert Split("General, random ,, VIP", NameSeparator) == pieces by {
      assert Join(pieces, NameSeparator) == "General, random ,, VIP";
      SplitJoin(pieces, NameSeparator);
    }
    NamesInExamplePieces();
  }

  /** A channel name is restricted exactly when, lowered, it is a non-empty name that
      some piece of the raw setting normalizes to; so "General" in the setting
      restricts channels named "general" and "GENERAL" alike. */
  lemma RestrictedIffListed(cfg: Configuration, channelName: string)
    requires WellFormed(cfg)
    ensures ToLower(channelName) in cfg.parsedNames <==>
      ToLower(channelName) != "" &&
      exists p :: p in Split(cfg.restrictedChannelName, NameSeparator) &&
                  Normalize(p) == ToLower(channelName)
  {
    ParsedNamesMembership(cfg.restrictedChannelName, ToLower(channelName));
  }

  /** A setting that restricts some name is not the empty string. */
  lemma RestrictingSettingIsNonEmpty(raw: string, n: string)
    requires n in ParsedNames(raw)
    ensures raw != ""
  {
    if raw == "" {
      ParsedNamesOfEmpty();
    }
  }

  // ---------------------------------------------------------------------
  // The post gate
  // ---------------------------------------------------------------------

  /** The marker a channel admin's membership roles contain. */
  const ChannelAdminRole := "channel_admin"

  /** The fields of a post the hook reads or writes. */
  datatype Post = Post(userId: string, channelId: string, message: string)

  datatype Channel = Channel(name: string)

  datatype User = User(username: string)

  /** A user's membership in a channel; `roles` is a space-separated role list. */
  datatype ChannelMember = ChannelMember(roles: string)

  /** The host's answers to the three lookups the hook may make. */
  datatype Host = Host(
    getChannel: string -> Result<Channel, Error>,
    getUser: string -> Result<User, Error>,
    getChannelMember: (string, string) -> Result<ChannelMember, Error>)

  /** A host lookup the hook makes. */
  datatype Lookup =
    | ChannelLookup(channelId: string)
    | UserLookup(userId: string)
    | MemberLookup(channelId: string, userId: string)

  /** An ephemeral post sent to one user. */
  datatype Notice = Notice(userId: string, post: Post)

  /** A log line: a message with one key/value pair. */
  datatype LogEntry = LogEntry(message: string, key: string, value: string)

  /** Everything the hook does besides returning: the lookups it made, in order, the
      ephemeral posts it sent, and what it logged at error and at info level. */
  datatype Effects = Effects(
    lookups: seq<Lookup>,
    notices: seq<Notice>,
    errors: seq<LogEntry>,
    infos: seq<LogEntry>)

  /** What the hook returns to the host (the post to keep, `None` to discard it, and the
      rejection string), with its effects. */
  datatype Decision = Decision(post: Option<Post>, rejection: string, effects: Effects)

  /** The lookups of a post, in the order the hook makes them when it makes all three. */
  function AllLookups(post: Post): seq<Lookup> {
    [ChannelLookup(post.channelId), UserLookup(post.userId),
     MemberLookup(post.channelId, post.userId)]
  }

  /** The notice a rejected poster gets: a post in the rejected post's channel carrying
      the configured rejection message, sent to the post's author. */
  function RejectionNotice(cfg: Configuration, post: Post): Notice {
    Notice(post.userId, Post("", post.channelId, cfg.rejectionMessage))
  }

  /** The MessageWillBePosted hook. The post is never altered: it is kept or discarded.
      The rejection string is empty unless the post is discarded, and then it is the raw
      restricted-names setting. At most one notice is sent, only for a discarded post,
      and only to its author. The lookups are made in order, each at most once, and
      the channel lookup always. At most one error is logged, and never together with
      a notice. */
  function MessageWillBePosted(cfg: Configuration, host: Host, post: Post): (d: Decision)
    ensures d.post == Some(post) || d.post == None
    ensures d.rejection == "" || (d.post == None && d.rejection == cfg.restrictedChannelName)
    ensures d.effects.notices == [] ||
            (d.post == None && d.effects.notices == [RejectionNotice(cfg, post)])
    ensures 1 <= |d.effects.lookups| <= 3 && d.effects.lookups == AllLookups(post)[..|d.effects.lookups|]
    ensures |d.effects.errors| <= 1 && (d.effects.errors == [] || d.effects.notices == [])
  {
    var lookups := AllLookups(post);
    match host.getChannel(post.channelId)
    case Failure(e) =>
      Decision(Some(post), "",
        Effects(lookups[..1], [], [LogEntry("Failed to get channel", "error", e.message)], []))
    case Success(channel) =>
      if ToLower(channel.name) !in cfg.parsedNames then
        Decision(Some(post), "", Effects(lookups[..1], [], [], []))
      else
        match host.getUser(post.userId)
        case Failure(e) =>
          Decision(Some(post), "",
            Effects(lookups[..2], [], [LogEntry("Failed to get user", "error", e.message)], []))
        case Success(user) =>
          match host.getChannelMember(post.channelId, post.userId)
          case Failure(e) =>
            Decision(None, "",
              Effects(lookups, [], [LogEntry("Failed to get channel member", "error", e.message)], []))
          case Success(member) =>
            if !Contains(member.roles, ChannelAdminRole) then
              Decision(None, cfg.restrictedChannelName,
                Effects(lookups, [RejectionNotice(cfg, post)], [],
                        [LogEntry("Blocked non-channel admin post", "user", user.username)]))
            else
              Decision(Some(post), "", Effects(lookups, [], [], []))
  }

  // ---------------------------------------------------------------------
  // Properties of the post gate
  // ---------------------------------------------------------------------

  /** A failed channel lookup lets the post through unchanged, sends no notice, logs
      one error and nothing at info level; nothing else is looked up. */
  lemma ChannelLookupFailureFailsOpen(cfg: Configuration, host: Host, post: Post)
    requires host.getChannel(post.channelId).Failure?
    ensures MessageWillBePosted(cfg, host, post) ==
      Decision(Some(post), "",
        Effects([ChannelLookup(post.channelId)], [],
                [LogEntry("Failed to get channel", "error", host.getChannel(post.channelId).error.message)],
                []))
  {
  }

  /** A post to a channel whose lowered name is not restricted goes through unchanged,
      whatever the user and the membership are: they are not even looked up. */
  lemma UnrestrictedChannelPasses(cfg: Configuration, host: Host, post: Post, channel: Channel)
    requires host.getChannel(post.channelId) == Success(channel)
    requires ToLower(channel.name) !in cfg.parsedNames
    ensures MessageWillBePosted(cfg, host, post) ==
      Decision(Some(post), "", Effects([ChannelLookup(post.channelId)], [], [], []))
  {
  }

  /** In a restricted channel, a failed user lookup lets the post through unchanged,
      sends no notice, logs one error and nothing at info level; the membership is
      never looked up. */
  lemma UserLookupFailureFailsOpen(cfg: Configuration, host: Host, post: Post, channel: Channel)
    requires host.getChannel(post.channelId) == Success(channel)
    requires ToLower(channel.name) in cfg.parsedNames
    requires host.getUser(post.userId).Failure?
    ensures MessageWillBePosted(cfg, host, post) ==
      Decision(Some(post), "",
        Effects([ChannelLookup(post.channelId), UserLookup(post.userId)], [],
                [LogEntry("Failed to get user", "error", host.getUser(post.userId).error.message)],
                []))
  {
  }

  /** In a restricted channel, a failed membership lookup discards the post with an
      empty rejection string, sends no notice, logs one error and nothing at info
      level, after all three lookups. */
  lemma MemberLookupFailureFailsClosed(
    cfg: Configuration, host: Host, post: Post, channel: Channel, user: User)
    requires host.getChannel(post.channelId) == Success(channel)
    requires ToLower(channel.name) in cfg.parsedNames
    requires host.getUser(post.userId) == Success(user)
    requires host.getChannelMember(post.channelId, post.userId).Failure?
    ensures MessageWillBePosted(cfg, host, post) ==
      Decision(None, "",
        Effects(AllLookups(post), [],
                [LogEntry("Failed to get channel member", "error",
                          host.getChannelMember(post.channelId, post.userId).error.message)],
                []))
  {
  }

  /** In a restricted channel, a member whose roles contain "channel_admin" posts
      unchanged, with nothing sent and nothing logged. */
  lemma ChannelAdminPasses(
    cfg: Configuration, host: Host, post: Post, channel: Channel, user: User, member: ChannelMember)
    requires host.getChannel(post.channelId) == Success(channel)
    requires ToLower(channel.name) in cfg.parsedNames
    requires host.getUser(post.userId) == Success(user)
    requires host.getChannelMember(post.channelId, post.userId) == Success(member)
    requires Contains(member.roles, ChannelAdminRole)
    ensures MessageWillBePosted(cfg, host, post) ==
      Decision(Some(post), "", Effects(AllLookups(post), [], [], []))
  {
  }

  /** In a restricted channel, any other member's post is discarded; the rejection
      string is the raw setting (not the channel's name); exactly one notice goes to
      the post's author, in the post's channel, with the rejection message; and one
      info line names the user. */
  lemma NonAdminIsRejected(
    cfg: Configuration, host: Host, post: Post, channel: Channel, user: User, member: ChannelMember)
    requires host.getChannel(post.channelId) == Success(channel)
    requires ToLower(channel.name) in cfg.parsedNames
    requires host.getUser(post.userId) == Success(user)
    requires host.getChannelMember(post.channelId, post.userId) == Success(member)
    requires !Contains(member.roles, ChannelAdminRole)
    ensures var d := MessageWillBePosted(cfg, host, post);
      d.post == None && d.rejection == cfg.restrictedChannelName &&
      d.effects.notices == [Notice(post.userId, Post("", post.channelId, cfg.rejectionMessage))] &&
      d.effects.errors == [] &&
      d.effects.infos == [LogEntry("Blocked non-channel admin post", "user", user.username)]
  {
  }

  /** The gate's policy in one statement: a post is discarded exactly when its channel
      is found and restricted, its author is found, and the author's membership either
      cannot be read or lacks the channel-admin role. */
  lemma DiscardedIff(cfg: Configuration, host: Host, post: Post)
    ensures MessageWillBePosted(cfg, host, post).post == None <==>
      var channel := host.getChannel(post.channelId);
      var member := host.getChannelMember(post.channelId, post.userId);
      channel.Success? && ToLower(channel.value.name) in cfg.parsedNames &&
      host.getUser(post.userId).Success? &&
      (member.Failure? || !Contains(member.value.roles, ChannelAdminRole))
  {
  }

  /** For a well-formed configuration the rejection string is non-empty exactly when
      a notice is sent: a setting that restricts the channel is never empty. */
  lemma RejectionIffNotice(cfg: Configuration, host: Host, post: Post)
    requires WellFormed(cfg)
    ensures var d := MessageWillBePosted(cfg, host, post);
      d.rejection != "" <==> d.effects.notices != []
  {
    var d := MessageWillBePosted(cfg, host, post);
    if d.effects.notices != [] {
      var name := ToLower(host.getChannel(post.channelId).value.name);
      RestrictingSettingIsNonEmpty(cfg.restrictedChannelName, name);
    }
  }

  /** An info line is logged exactly when a notice is sent. */
  lemma InfoIffNotice(cfg: Configuration, host: Host, post: Post)
    ensures var d := MessageWillBePosted(cfg, host, post);
      d.effects.infos != [] <==> d.effects.notices != []
  {
  }

  /** The gate as the plugin runs it, on the configuration its last successful reload
      stored: because reloading keeps `Plugin.Valid()`, the stored configuration is
      well formed, and the rejection string is non-empty exactly when a notice is sent. */
  lemma ConfiguredPluginRejectionIffNotice(p: Plugin, host: Host, post: Post)
    requires p.Valid() && p.configuration.Some?
    ensures var d := MessageWillBePosted(p.configuration.value, host, post);
      d.rejection != "" <==> d.effects.notices != []
  {
    RejectionIffNotice(p.configuration.value, host, post);
  }

  /** Channel matching ignores case: two channels whose names lower to the same string
      get the same outcome and the same notices, all else being equal. */
  lemma ChannelNameCaseIgnored(
    cfg: Configuration, host1: Host, host2: Host, post: Post, channel1: Channel, channel2: Channel)
    requires host1.getChannel(post.channelId) == Success(channel1)
    requires host2.getChannel(post.channelId) == Success(channel2)
    requires ToLower(channel1.name) == ToLower(channel2.name)
    requires host1.getUser(post.userId) == host2.getUser(post.userId)
    requires host1.getChannelMember(post.channelId, post.userId) ==
             host2.getChannelMember(post.channelId, post.userId)
    ensures var d1, d2 := MessageWillBePosted(cfg, host1, post), MessageWillBePosted(cfg, host2, post);
      d1.post == d2.post && d1.rejection == d2.rejection && d1.effects == d2.effects
  {
  }

  /** The example: with "General, random ,, VIP" configured, a user without the admin
      role posting in a channel named "GENERAL" has the post discarded, and the
      rejection string is the whole setting. */
  lemma ExampleNonAdminInGeneral(host: Host, post: Post, message: string)
    requires host.getChannel(post.channelId) == Success(Channel("GENERAL"))
    requires host.getUser(post.userId).Success?
    requires host.getChannelMember(post.channelId, post.userId) == Success(ChannelMember("channel_user"))
    ensures var cfg := Configuration("General, random ,, VIP", message, ParsedNames("General, random ,, VIP"));
      var d := MessageWillBePosted(cfg, host, post);
      d.post == None && d.rejection == "General, random ,, VIP" &&
      d.effects.notices == [Notice(post.userId, Post("", post.channelId, message))]
  {
    ParsedNamesExample();
    ToLowerCapitalGeneral();
    assert !Contains("channel_user", ChannelAdminRole) by {
      assert |"channel_user"| < |ChannelAdminRole|;
    }
  }
}
