/**
 * The room client of the voice chat page: how it names its participant,
 * what it keeps for one browser tab, how it turns every poll result into the
 * message list it shows (translating through a per-session cache), and how
 * it leaves a room — on request, when the server says the room is gone
 * (HTTP 410), or when the signed-in user changes.
 *
 * All of the component's React state and refs are fields of `RoomClient`;
 * `Session` is the same state as a value, and the functions over `Session`
 * say what each handler does to it. React's effect for polling is modelled
 * by `AfterRender`: when a handler changes one of the effect's modelled
 * dependencies, the previous run's cleanup (stop the timer, clear the
 * cache) runs if that run got past the guard, and the new run starts the
 * timer if in a room.
 */
module VoiceChat {
  import opened Wrappers

  datatype Language = Language(code: string, name: string, flag: string)

  const SupportedLanguages: seq<Language> := [
    Language("en-US", "英语", "🇺🇸"),
    Language("zh-CN", "中文", "🇨🇳"),
    Language("ja-JP", "日语", "🇯🇵"),
    Language("es-ES", "西班牙语", "🇪🇸"),
    Language("fr-FR", "法语", "🇫🇷"),
    Language("de-DE", "德语", "🇩🇪"),
    Language("ko-KR", "韩语", "🇰🇷"),
    Language("pt-BR", "葡萄牙语", "🇧🇷")
  ]

  /** A room participant as the server lists it (only `id` and `avatar` are read here). */
  datatype User = User(id: string, name: string, avatar: Option<string>)

  /** A message as the server's poll response carries it. */
  datatype ServerMessage = ServerMessage(
    id: string, userId: string, userName: string, originalText: string,
    originalLanguage: string, timestamp: string, audioUrl: Option<string>)

  /** A message as the page shows it. */
  datatype Message = Message(
    id: string, userId: string, userName: string, originalText: string,
    translatedText: string, originalLanguage: string, targetLanguage: string,
    timestamp: string, isUser: bool, audioUrl: Option<string>, userAvatar: Option<string>)

  /** What `translateText` did for one message: resolved with a text, or threw. */
  datatype TranslationResult = Translated(text: string) | TranslationFailed

  // ---------------------------------------------------------------------
  // Participant identity

  const InstanceStorageKey := "voicelink_client_instance_id"

  /** `clientInstanceIdRef.current` and the tab's `sessionStorage`. */
  datatype InstanceState = InstanceState(ref: string, storage: map<string, string>)

  /**
   * How the tab's `sessionStorage` behaves: usable, blocked (every access
   * throws a `SecurityError`), or full (reading works, but writing throws a
   * `QuotaExceededError`).
   */
  datatype StorageAccess = Usable | Blocked | Full

  /** The instance id already in session storage, or "" (a missing or empty value is not reused). */
  function StoredInstanceId(storage: map<string, string>): string {
    if InstanceStorageKey in storage then storage[InstanceStorageKey] else ""
  }

  /**
   * Whether `ensureClientInstanceId` throws: only when it reaches the
   * storage, and then at `getItem` if storage is blocked, or at `setItem`
   * if storage is full and there is no id to adopt.
   */
  predicate InstanceStorageThrows(st: InstanceState, windowDefined: bool, access: StorageAccess) {
    st.ref == "" && windowDefined
    && (access == Blocked || (access == Full && StoredInstanceId(st.storage) == ""))
  }

  /**
   * `ensureClientInstanceId`: the new ref and storage, and the id returned,
   * or `None` when a storage call throws (then the ref is left empty and
   * nothing is written). `generated` is the freshly made id (`randomUUID()`
   * or "ci-…"), used only when neither the ref nor the storage has one.
   */
  function EnsureInstance(st: InstanceState, windowDefined: bool, access: StorageAccess,
                          generated: string): (res: Option<(InstanceState, string)>)
    requires generated != ""
    ensures res.None? <==> InstanceStorageThrows(st, windowDefined, access)
    ensures res.Some? ==> res.value.1 != "" && res.value.0.ref == res.value.1
    ensures st.ref != "" ==> res == Some((st, st.ref))
    ensures st.ref == "" && !windowDefined ==> res == Some((InstanceState(generated, st.storage), generated))
    ensures st.ref == "" && windowDefined && access != Blocked && StoredInstanceId(st.storage) != "" ==>
      res == Some((InstanceState(st.storage[InstanceStorageKey], st.storage), st.storage[InstanceStorageKey]))
    ensures st.ref == "" && windowDefined && access == Usable && StoredInstanceId(st.storage) == "" ==>
      res == Some((InstanceState(generated, st.storage[InstanceStorageKey := generated]), generated))
  {
    if st.ref != "" then Some((st, st.ref))
    else if !windowDefined then Some((st.(ref := generated), generated))
    else if access == Blocked then None
    else
      var existing := StoredInstanceId(st.storage);
      if existing != "" then Some((st.(ref := existing), existing))
      else if access == Full then None
      else Some((InstanceState(generated, st.storage[InstanceStorageKey := generated]), generated))
  }

  /**
   * Once it has returned an id, every later call returns the same id and
   * changes nothing, whatever the storage does and whatever it would generate.
   */
  lemma EnsureInstanceIdempotent(st: InstanceState, w1: bool, a1: StorageAccess, g1: string,
                                 w2: bool, a2: StorageAccess, g2: string)
    requires g1 != "" && g2 != ""
    requires EnsureInstance(st, w1, a1, g1).Some?
    ensures EnsureInstance(EnsureInstance(st, w1, a1, g1).value.0, w2, a2, g2) == EnsureInstance(st, w1, a1, g1)
  {
  }

  /**
   * A call that throws leaves the ref empty, so while the storage stays
   * unusable every later call throws again: the tab cannot get an id.
   */
  lemma StorageFailureRepeats(st: InstanceState, access: StorageAccess, g1: string, g2: string)
    requires g1 != "" && g2 != ""
    requires EnsureInstance(st, true, access, g1).None?
    ensures st.ref == ""
    ensures EnsureInstance(st, true, access, g2).None?
  {
  }

  /** An id already in session storage is adopted and never overwritten, even when storage is full. */
  lemma StoredInstanceIdKept(st: InstanceState, access: StorageAccess, g: string)
    requires g != "" && st.ref == "" && StoredInstanceId(st.storage) != "" && access != Blocked
    ensures EnsureInstance(st, true, access, g).Some?
    ensures EnsureInstance(st, true, access, g).value.0.storage == st.storage
    ensures EnsureInstance(st, true, access, g).value.1 == st.storage[InstanceStorageKey]
  {
  }

  /**
   * A reload of the tab (empty ref, same session storage) gets back the id
   * the tab had, so it rejoins as the same participant, as long as the
   * storage can still be read.
   */
  lemma ReloadKeepsInstanceId(storage: map<string, string>, a1: StorageAccess, g1: string,
                              a2: StorageAccess, g2: string)
    requires g1 != "" && g2 != "" && a2 != Blocked
    requires EnsureInstance(InstanceState("", storage), true, a1, g1).Some?
    ensures var (st1, id1) := EnsureInstance(InstanceState("", storage), true, a1, g1).value;
      EnsureInstance(InstanceState("", st1.storage), true, a2, g2) == Some((InstanceState(id1, st1.storage), id1))
  {
  }

  /**
   * The id a participant joins under: for a signed-in user, the user id, a
   * ':' and the instance id; otherwise the anonymous id.
   */
  function ParticipantId(authUserId: Option<string>, instanceId: string, anonUserId: string): (id: string)
    ensures !Truthy(authUserId) ==> id == anonUserId
    ensures Truthy(authUserId) ==>
      var u := authUserId.value;
      |id| == |u| + 1 + |instanceId| && id[..|u|] == u && id[|u|] == ':' && id[|u| + 1..] == instanceId
  {
    if Truthy(authUserId) then authUserId.value + ":" + instanceId else anonUserId
  }

  /** Splits at the first ':' — how the two halves of a participant id are read apart. */
  function SplitAtColon(s: string): (r: Option<(string, string)>)
    ensures r.Some? ==> s == r.value.0 + ":" + r.value.1 && ':' !in r.value.0
    ensures r.None? ==> ':' !in s
  {
    if s == [] then None
    else if s[0] == ':' then Some(([], s[1..]))
    else match SplitAtColon(s[1..])
      case None => None
      case Some((a, b)) => Some(([s[0]] + a, b))
  }

  lemma {:induction false} SplitAtColonOfJoin(a: string, b: string)
    requires ':' !in a
    ensures SplitAtColon(a + ":" + b) == Some((a, b))
  {
    if a != [] {
      var s := a + ":" + b;
      assert s[0] == a[0] && a[0] != ':';
      assert s[1..] == a[1..] + ":" + b;
      SplitAtColonOfJoin(a[1..], b);
      assert [a[0]] + a[1..] == a;
    } else {
      assert (a + ":" + b)[1..] == b;
    }
  }

  /**
   * A signed-in participant id is the user id and the instance id joined by
   * ':' and splits back into them (user ids contain no ':'), so two tabs of
   * one user are different participants and one tab is always the same one;
   * without a user id the anonymous id is used.
   */
  lemma ParticipantIdDecomposes(authUserId: Option<string>, instanceId: string, anonUserId: string)
    ensures !Truthy(authUserId) ==> ParticipantId(authUserId, instanceId, anonUserId) == anonUserId
    ensures Truthy(authUserId) && ':' !in authUserId.value ==>
      SplitAtColon(ParticipantId(authUserId, instanceId, anonUserId)) == Some((authUserId.value, instanceId))
  {
    if Truthy(authUserId) && ':' !in authUserId.value {
      SplitAtColonOfJoin(authUserId.value, instanceId);
    }
  }

  /** Different instance ids (or different users) give different participant ids. */
  lemma ParticipantIdsDistinct(u1: string, i1: string, u2: string, i2: string, anon: string)
    requires u1 != "" && u2 != "" && ':' !in u1 && ':' !in u2
    requires (u1, i1) != (u2, i2)
    ensures ParticipantId(Some(u1), i1, anon) != ParticipantId(Some(u2), i2, anon)
  {
    ParticipantIdDecomposes(Some(u1), i1, anon);
    ParticipantIdDecomposes(Some(u2), i2, anon);
  }

  // ---------------------------------------------------------------------
  // One poll result

  function CacheKey(messageId: string, targetName: string): string {
    messageId + ":" + targetName
  }

  /** A cache entry is used only when it is a non-empty string. */
  predicate CacheHit(cache: map<string, string>, key: string) {
    key in cache && cache[key] != ""
  }

  /** How the text shown for one message is chosen. */
  datatype Decision = FromCache(text: string) | SameLanguage | NeedsTranslation

  function Decide(cache: map<string, string>, m: ServerMessage, targetName: string): (d: Decision)
    ensures d.FromCache? <==> CacheHit(cache, CacheKey(m.id, targetName))
    ensures d.FromCache? ==> d.text == cache[CacheKey(m.id, targetName)]
    ensures d == SameLanguage <==> !CacheHit(cache, CacheKey(m.id, targetName)) && m.originalLanguage == targetName
    ensures d == NeedsTranslation <==> !CacheHit(cache, CacheKey(m.id, targetName)) && m.originalLanguage != targetName
  {
    var key := CacheKey(m.id, targetName);
    if CacheHit(cache, key) then FromCache(cache[key])
    else if m.originalLanguage != targetName then NeedsTranslation
    else SameLanguage
  }

  /** The shown text: the cached one, else the original, else the translation if it succeeded. */
  function ShownText(d: Decision, m: ServerMessage, t: TranslationResult): string {
    match d
    case FromCache(text) => text
    case SameLanguage => m.originalText
    case NeedsTranslation => if t.Translated? then t.text else m.originalText
  }

  /** `new Map(users.map(u => [u.id, u.avatar]))`: a later user with the same id wins. */
  function AvatarById(users: seq<User>): (avatars: map<string, Option<string>>)
    ensures forall i :: 0 <= i < |users| ==> users[i].id in avatars
    ensures forall id :: id in avatars ==> exists i :: 0 <= i < |users| && users[i].id == id
    decreases |users|
  {
    if users == [] then map[]
    else
      var init := AvatarById(users[..|users| - 1]);
      var last := users[|users| - 1];
      assert forall i :: 0 <= i < |users| - 1 ==> users[..|users| - 1][i] == users[i];
      init[last.id := last.avatar]
  }

  /** Each id maps to the avatar of the last user listed with that id. */
  lemma {:induction false} AvatarByIdLastWins(users: seq<User>, i: nat)
    requires i < |users|
    requires forall j :: i < j < |users| ==> users[j].id != users[i].id
    ensures AvatarById(users)[users[i].id] == users[i].avatar
    decreases |users|
  {
    if i < |users| - 1 {
      var init := users[..|users| - 1];
      assert init[i] == users[i];
      forall j | i < j < |init| ensures init[j].id != init[i].id {
        assert init[j] == users[j];
      }
      AvatarByIdLastWins(init, i);
    }
  }

  /** `avatarById.get(msg.userId)`, where an absent entry reads as `undefined`. */
  function AvatarOf(avatars: map<string, Option<string>>, userId: string): Option<string> {
    if userId in avatars then avatars[userId] else None
  }

  /**
   * The entry built for one server message (the body of the `room.messages.map`
   * callback): the server's fields are carried over, the entry is the user's
   * own exactly when its sender is this participant, the avatar is looked up
   * by sender, and the text shown is the non-empty cached one, else the
   * original when no translation is needed or it failed, else the translation.
   */
  function ToMessage(cache: map<string, string>, avatars: map<string, Option<string>>, roomUserId: string,
                     targetName: string, m: ServerMessage, t: TranslationResult): (e: Message)
    ensures e.id == m.id && e.userId == m.userId && e.userName == m.userName && e.originalText == m.originalText
    ensures e.originalLanguage == m.originalLanguage && e.timestamp == m.timestamp && e.audioUrl == m.audioUrl
    ensures e.targetLanguage == targetName
    ensures e.isUser <==> m.userId == roomUserId
    ensures e.userAvatar == (if m.userId in avatars then avatars[m.userId] else None)
    ensures var key := CacheKey(m.id, targetName);
      && (CacheHit(cache, key) ==> e.translatedText == cache[key])
      && (!CacheHit(cache, key) && (m.originalLanguage == targetName || t.TranslationFailed?) ==>
            e.translatedText == m.originalText)
      && (!CacheHit(cache, key) && m.originalLanguage != targetName && t.Translated? ==> e.translatedText == t.text)
  {
    Message(m.id, m.userId, m.userName, m.originalText,
            ShownText(Decide(cache, m, targetName), m, t),
            m.originalLanguage, targetName, m.timestamp,
            m.userId == roomUserId, m.audioUrl, AvatarOf(avatars, m.userId))
  }

  /**
   * The new message list of a poll. All cache lookups see the cache as it
   * was when the poll result arrived: `Promise.all` starts every callback,
   * and each reads the cache, before any translation resolves.
   */
  function MapPoll(cache: map<string, string>, users: seq<User>, roomUserId: string, targetName: string,
                   msgs: seq<ServerMessage>, ts: seq<TranslationResult>): (out: seq<Message>)
    requires |ts| == |msgs|
    ensures |out| == |msgs|
    ensures forall i :: 0 <= i < |msgs| ==>
      out[i] == ToMessage(cache, AvatarById(users), roomUserId, targetName, msgs[i], ts[i])
  {
    var avatars := AvatarById(users);
    seq(|msgs|, i requires 0 <= i < |msgs| => ToMessage(cache, avatars, roomUserId, targetName, msgs[i], ts[i]))
  }

  /** The list for one more message is the list so far plus that message's entry. */
  lemma MapPollStep(cache: map<string, string>, users: seq<User>, roomUserId: string, targetName: string,
                    msgs: seq<ServerMessage>, ts: seq<TranslationResult>, i: nat)
    requires |ts| == |msgs| && i < |msgs|
    ensures MapPoll(cache, users, roomUserId, targetName, msgs[..i + 1], ts[..i + 1])
         == MapPoll(cache, users, roomUserId, targetName, msgs[..i], ts[..i])
            + [ToMessage(cache, AvatarById(users), roomUserId, targetName, msgs[i], ts[i])]
  {
    var a := MapPoll(cache, users, roomUserId, targetName, msgs[..i + 1], ts[..i + 1]);
    var b := MapPoll(cache, users, roomUserId, targetName, msgs[..i], ts[..i]);
    var e := ToMessage(cache, AvatarById(users), roomUserId, targetName, msgs[i], ts[i]);
    forall k | 0 <= k < i + 1
      ensures a[k] == (b + [e])[k]
    {
      if k < i {
        assert msgs[..i + 1][k] == msgs[..i][k] && ts[..i + 1][k] == ts[..i][k];
      }
    }
  }

  /**
   * The poll replaces the list by one of the same length and order: each
   * entry keeps the server message's id, author and original text, is marked
   * as the user's own exactly when its author is this participant, and shows
   * the cached text on a hit, the original when no translation is needed or
   * the translation failed, and the translation otherwise.
   */
  lemma MapPollFaithful(cache: map<string, string>, users: seq<User>, roomUserId: string, targetName: string,
                        msgs: seq<ServerMessage>, ts: seq<TranslationResult>, i: nat)
    requires |ts| == |msgs| && i < |msgs|
    ensures var out := MapPoll(cache, users, roomUserId, targetName, msgs, ts);
      var m := msgs[i];
      var key := CacheKey(m.id, targetName);
      && |out| == |msgs|
      && out[i].id == m.id && out[i].userId == m.userId && out[i].originalText == m.originalText
      && out[i].targetLanguage == targetName
      && (out[i].isUser <==> m.userId == roomUserId)
      && (CacheHit(cache, key) ==> out[i].translatedText == cache[key])
      && (!CacheHit(cache, key) && m.originalLanguage == targetName ==> out[i].translatedText == m.originalText)
      && (!CacheHit(cache, key) && m.originalLanguage != targetName ==>
            out[i].translatedText == (if ts[i].Translated? then ts[i].text else m.originalText))
  {
  }

  /** Message `i` of the poll stores a translation in the cache. */
  predicate WritesCache(cache0: map<string, string>, targetName: string, m: ServerMessage, t: TranslationResult) {
    Decide(cache0, m, targetName) == NeedsTranslation && t.Translated?
  }

  /** The cache after one poll: every successful translation is stored under its key, in list order. */
  function CacheAfterPoll(cache0: map<string, string>, targetName: string,
                          msgs: seq<ServerMessage>, ts: seq<TranslationResult>): map<string, string>
    requires |ts| == |msgs|
    decreases |msgs|
  {
    if msgs == [] then cache0
    else
      var n := |msgs| - 1;
      var c := CacheAfterPoll(cache0, targetName, msgs[..n], ts[..n]);
      if WritesCache(cache0, targetName, msgs[n], ts[n]) then c[CacheKey(msgs[n].id, targetName) := ts[n].text]
      else c
  }

  /** One more message of the poll: its translation, if stored, is written over the cache so far. */
  lemma CacheAfterPollStep(cache0: map<string, string>, targetName: string,
                           msgs: seq<ServerMessage>, ts: seq<TranslationResult>, i: nat)
    requires |ts| == |msgs| && i < |msgs|
    ensures var c := CacheAfterPoll(cache0, targetName, msgs[..i], ts[..i]);
      CacheAfterPoll(cache0, targetName, msgs[..i + 1], ts[..i + 1]) ==
        if WritesCache(cache0, targetName, msgs[i], ts[i]) then c[CacheKey(msgs[i].id, targetName) := ts[i].text] else c
  {
    assert msgs[..i + 1][..i] == msgs[..i];
    assert ts[..i + 1][..i] == ts[..i];
  }

  /** Keys no successful translation of this poll wrote are left exactly as they were. */
  lemma {:induction false} CacheAfterPollFrame(cache0: map<string, string>, targetName: string,
                                               msgs: seq<ServerMessage>, ts: seq<TranslationResult>, key: string)
    requires |ts| == |msgs|
    requires forall i :: 0 <= i < |msgs| && WritesCache(cache0, targetName, msgs[i], ts[i]) ==>
      CacheKey(msgs[i].id, targetName) != key
    ensures var c := CacheAfterPoll(cache0, targetName, msgs, ts);
      (key in c <==> key in cache0) && (key in c ==> c[key] == cache0[key])
    decreases |msgs|
  {
    if msgs != [] {
      var n := |msgs| - 1;
      forall i | 0 <= i < n && WritesCache(cache0, targetName, msgs[..n][i], ts[..n][i])
        ensures CacheKey(msgs[..n][i].id, targetName) != key
      {
        assert msgs[..n][i] == msgs[i] && ts[..n][i] == ts[i];
      }
      CacheAfterPollFrame(cache0, targetName, msgs[..n], ts[..n], key);
    }
  }

  /**
   * A successful translation that no later message of the same poll
   * overwrites is in the cache afterwards under "<id>:<target>".
   */
  lemma {:induction false} CacheAfterPollStores(cache0: map<string, string>, targetName: string,
                                                msgs: seq<ServerMessage>, ts: seq<TranslationResult>, i: nat)
    requires |ts| == |msgs| && i < |msgs|
    requires WritesCache(cache0, targetName, msgs[i], ts[i])
    requires forall j :: i < j < |msgs| && WritesCache(cache0, targetName, msgs[j], ts[j]) ==>
      CacheKey(msgs[j].id, targetName) != CacheKey(msgs[i].id, targetName)
    ensures var c := CacheAfterPoll(cache0, targetName, msgs, ts);
      CacheKey(msgs[i].id, targetName) in c && c[CacheKey(msgs[i].id, targetName)] == ts[i].text
    decreases |msgs|
  {
    var n := |msgs| - 1;
    if i < n {
      assert msgs[..n][i] == msgs[i] && ts[..n][i] == ts[i];
      forall j | i < j < n && WritesCache(cache0, targetName, msgs[..n][j], ts[..n][j])
        ensures CacheKey(msgs[..n][j].id, targetName) != CacheKey(msgs[..n][i].id, targetName)
      {
        assert msgs[..n][j] == msgs[j] && ts[..n][j] == ts[j];
      }
      CacheAfterPollStores(cache0, targetName, msgs[..n], ts[..n], i);
    }
  }

  /** A poll never loses a key: the cache only grows between clears. */
  lemma {:induction false} CacheAfterPollGrows(cache0: map<string, string>, targetName: string,
                                               msgs: seq<ServerMessage>, ts: seq<TranslationResult>)
    requires |ts| == |msgs|
    ensures cache0.Keys <= CacheAfterPoll(cache0, targetName, msgs, ts).Keys
    decreases |msgs|
  {
    if msgs != [] {
      var n := |msgs| - 1;
      CacheAfterPollGrows(cache0, targetName, msgs[..n], ts[..n]);
    }
  }

  /**
   * A message translated by one poll into a non-empty text is served from the
   * cache by the next poll in the same language: no second translation
   * request, and the same text is shown.
   */
  lemma NextPollUsesCache(cache0: map<string, string>, targetName: string,
                          msgs: seq<ServerMessage>, ts: seq<TranslationResult>, i: nat, again: ServerMessage)
    requires |ts| == |msgs| && i < |msgs|
    requires WritesCache(cache0, targetName, msgs[i], ts[i]) && ts[i].text != ""
    requires forall j :: i < j < |msgs| && WritesCache(cache0, targetName, msgs[j], ts[j]) ==>
      CacheKey(msgs[j].id, targetName) != CacheKey(msgs[i].id, targetName)
    requires again.id == msgs[i].id
    ensures var cache1 := CacheAfterPoll(cache0, targetName, msgs, ts);
      Decide(cache1, again, targetName) == FromCache(ts[i].text)
  {
    CacheAfterPollStores(cache0, targetName, msgs, ts, i);
  }

  // ---------------------------------------------------------------------
  // The component's state and its handlers, as values

  /**
   * The component's `useState` values. The setters a handler calls without
   * an `await` between them take effect together at the next render; a
   * handler that awaits between two setters (`pollRoom`,
   * `handleRecordingComplete`) goes through a render between them.
   */
  datatype Hooks = Hooks(
    isInRoom: bool, roomId: string, roomUserId: string, joinedAuthUserId: Option<string>,
    userName: string, users: seq<User>, messages: seq<Message>,
    userLanguage: Language, targetLanguage: Language, isProcessing: bool)

  /** The hooks together with the refs: the timer, the instance id with session storage, and the cache. */
  datatype Session = Session(hooks: Hooks, pollActive: bool, instance: InstanceState, cache: map<string, string>)

  /** The state on mount: out of any room, English spoken, Chinese shown. */
  function InitialSession(storage: map<string, string>): Session {
    Session(Hooks(false, "", "", None, "", [], [], SupportedLanguages[0], SupportedLanguages[1], false),
            false, InstanceState("", storage), map[])
  }

  /** The polling effect's guard: it only polls while in a room with a room id and a participant id. */
  predicate PollGuard(s: Session) {
    s.hooks.isInRoom && s.hooks.roomId != "" && s.hooks.roomUserId != ""
  }

  /**
   * The polling effect's dependencies that the room handlers change. The
   * other two, the translator `t` and `exitRoom`, are taken to keep their
   * identity; a change of UI locale renews `t`, which this model leaves out.
   */
  datatype PollDeps = PollDeps(isInRoom: bool, roomId: string, roomUserId: string, targetName: string)

  function DepsOf(s: Session): PollDeps {
    PollDeps(s.hooks.isInRoom, s.hooks.roomId, s.hooks.roomUserId, s.hooks.targetLanguage.name)
  }

  /** The guard on the dependencies alone: whether the effect's run for them got past its early return. */
  predicate DepsGuard(d: PollDeps) {
    d.isInRoom && d.roomId != "" && d.roomUserId != ""
  }

  /**
   * The render after a handler. When a dependency of the polling effect
   * changed, the previous run's cleanup (registered only if that run passed
   * the guard) stops the timer and clears the cache; then the new run starts
   * the timer when the guard holds, and otherwise returns early.
   */
  function AfterRender(before: PollDeps, s: Session): (t: Session)
    ensures before == DepsOf(s) ==> t == s
    ensures t.hooks == s.hooks && t.instance == s.instance
    ensures before != DepsOf(s) ==> (t.pollActive <==> PollGuard(s) || (!DepsGuard(before) && s.pollActive))
    ensures before != DepsOf(s) ==> t.cache == (if DepsGuard(before) then map[] else s.cache)
  {
    if before == DepsOf(s) then s
    else
      var cleaned := if DepsGuard(before) then s.(pollActive := false, cache := map[]) else s;
      if PollGuard(s) then cleaned.(pollActive := true) else cleaned
  }

  /**
   * From a valid session, the render after a handler leaves a valid session
   * whose timer runs exactly while the guard holds; the cache survives
   * unless the effect that had been polling was torn down.
   */
  lemma AfterRenderValid(s0: Session, s: Session)
    requires SessionValid(s0) && s.pollActive == s0.pollActive
    requires s.hooks.isInRoom ==> s.hooks.roomUserId != ""
    ensures var t := AfterRender(DepsOf(s0), s);
      && SessionValid(t)
      && t.cache == (if DepsOf(s0) != DepsOf(s) && PollGuard(s0) then map[] else s.cache)
  {
  }

  /** The session invariant: a poll timer runs exactly while the guard holds, and a member has a participant id. */
  predicate SessionValid(s: Session) {
    && (s.pollActive <==> PollGuard(s))
    && (s.hooks.isInRoom ==> s.hooks.roomUserId != "")
  }

  lemma InitialSessionValid(storage: map<string, string>)
    ensures SessionValid(InitialSession(storage))
    ensures !InitialSession(storage).pollActive
  {
  }

  /**
   * `exitRoom`: out of the room, no room id, participant id, messages or
   * users, no joined auth id, no poll timer and an empty cache; the
   * languages, the user name and the instance id are kept.
   */
  function Exit(s: Session): (t: Session)
    ensures !t.hooks.isInRoom && t.hooks.roomId == "" && t.hooks.roomUserId == "" && t.hooks.messages == [] && t.hooks.users == []
    ensures t.hooks.joinedAuthUserId == None && !t.pollActive && t.cache == map[]
    ensures t.hooks.userLanguage == s.hooks.userLanguage && t.hooks.targetLanguage == s.hooks.targetLanguage
    ensures t.hooks.userName == s.hooks.userName && t.instance == s.instance && t.hooks.isProcessing == s.hooks.isProcessing
    ensures SessionValid(t)
  {
    s.(hooks := s.hooks.(isInRoom := false, roomId := "", messages := [], users := [], roomUserId := "",
                         joinedAuthUserId := None),
       pollActive := false, cache := map[])
  }

  /**
   * The render after `exitRoom` changes nothing more: the timer is already
   * stopped and the cache already empty, and the guard no longer holds.
   */
  lemma ExitSettled(s: Session)
    ensures AfterRender(DepsOf(s), Exit(s)) == Exit(s)
  {
  }

  /** Leaving twice is leaving once. */
  lemma ExitIdempotent(s: Session)
    ensures Exit(Exit(s)) == Exit(s)
  {
  }

  /** What the poll request came back with. */
  datatype PollResponse =
    | PollGone                                             // HTTP 410
    | PollData(success: bool, room: Option<RoomSnapshot>)  // a JSON body
    | PollFailed                                           // the request threw, or the body was not JSON

  datatype RoomSnapshot = RoomSnapshot(users: seq<User>, messages: seq<ServerMessage>)

  /** A translation outcome for each message of an applicable poll result. */
  predicate TranslationsFit(r: PollResponse, ts: seq<TranslationResult>) {
    r.PollData? && r.success && r.room.Some? ==> |ts| == |r.room.value.messages|
  }

  /** `pollRoom`: 410 exits, a successful body replaces users and messages and fills the cache, anything else is ignored. */
  function ApplyPoll(s: Session, r: PollResponse, ts: seq<TranslationResult>): (t: Session)
    requires TranslationsFit(r, ts)
    ensures r.PollGone? ==> t == Exit(s)
    ensures r.PollFailed? || (r.PollData? && !(r.success && r.room.Some?)) ==> t == s
  {
    match r
    case PollGone => Exit(s)
    case PollFailed => s
    case PollData(success, room) =>
      if success && room.Some? then
        var snap := room.value;
        var target := s.hooks.targetLanguage.name;
        s.(hooks := s.hooks.(users := snap.users,
                             messages := MapPoll(s.cache, snap.users, s.hooks.roomUserId, target, snap.messages, ts)),
           cache := CacheAfterPoll(s.cache, target, snap.messages, ts))
      else s
  }

  /**
   * A successful poll replaces the users by the snapshot's, the messages by
   * one entry per server message built against the cache as the poll found
   * it, and adds the successful translations to the cache without dropping
   * a key; nothing else changes.
   */
  lemma ApplyPollFrame(s: Session, r: PollResponse, ts: seq<TranslationResult>)
    requires TranslationsFit(r, ts)
    requires r.PollData? && r.success && r.room.Some?
    ensures var t := ApplyPoll(s, r, ts);
      var snap := r.room.value;
      var target := s.hooks.targetLanguage.name;
      && t.hooks.users == snap.users
      && t.hooks.messages == MapPoll(s.cache, snap.users, s.hooks.roomUserId, target, snap.messages, ts)
      && |t.hooks.messages| == |snap.messages|
      && t.cache == CacheAfterPoll(s.cache, target, snap.messages, ts)
      && s.cache.Keys <= t.cache.Keys
      && t == s.(hooks := s.hooks.(users := t.hooks.users, messages := t.hooks.messages), cache := t.cache)
  {
    CacheAfterPollGrows(s.cache, s.hooks.targetLanguage.name, r.room.value.messages, ts);
  }

  /** What the join request came back with. */
  datatype JoinResponse =
    | JoinAnswered(success: bool, roomUsers: Option<seq<User>>)  // `data.success`, `data.room?.users`
    | JoinFailed                                                 // the request or JSON parsing threw

  /**
   * The participant id `handleJoinRoom` joins under, and the instance state
   * after it: `ensureClientInstanceId` runs only for a signed-in user, and
   * `None` means it threw.
   */
  function JoinIdentity(st: InstanceState, anonUserId: string, authUserId: Option<string>,
                        windowDefined: bool, access: StorageAccess, generated: string)
    : (res: Option<(InstanceState, string)>)
    requires generated != ""
    ensures !Truthy(authUserId) ==> res == Some((st, anonUserId))
    ensures Truthy(authUserId) && EnsureInstance(st, windowDefined, access, generated).None? ==> res.None?
    ensures Truthy(authUserId) && EnsureInstance(st, windowDefined, access, generated).Some? ==>
      var (st1, id) := EnsureInstance(st, windowDefined, access, generated).value;
      res == Some((st1, ParticipantId(authUserId, id, anonUserId)))
    ensures anonUserId != "" && res.Some? ==> res.value.1 != ""
  {
    if Truthy(authUserId) then
      match EnsureInstance(st, windowDefined, access, generated)
      case None => None
      case Some((st1, id)) => Some((st1, ParticipantId(authUserId, id, anonUserId)))
    else Some((st, anonUserId))
  }

  /**
   * `handleJoinRoom`: works out the participant id, then on success records
   * the room. When working out the id throws, the `catch` only shows a
   * toast and no request is made. When the body says success but has no
   * room, every setter before `setUsers(data.room.users)` has already run
   * when that expression throws.
   */
  function Join(s: Session, anonUserId: string, newRoomId: string, newUserName: string,
                authUserId: Option<string>, windowDefined: bool, access: StorageAccess, generated: string,
                r: JoinResponse): (t: Session)
    requires generated != ""
    ensures JoinIdentity(s.instance, anonUserId, authUserId, windowDefined, access, generated).None? ==> t == s
    ensures JoinIdentity(s.instance, anonUserId, authUserId, windowDefined, access, generated).Some? ==>
      var (inst, pid) := JoinIdentity(s.instance, anonUserId, authUserId, windowDefined, access, generated).value;
      && t.instance == inst
      && (r.JoinAnswered? && r.success ==> t.hooks.roomUserId == pid)
  {
    match JoinIdentity(s.instance, anonUserId, authUserId, windowDefined, access, generated)
    case None => s
    case Some((inst, pid)) => JoinAs(s.(instance := inst), pid, newRoomId, newUserName, authUserId, r)
  }

  /** The part of `handleJoinRoom` after the participant id `pid` is known. */
  function JoinAs(s: Session, pid: string, newRoomId: string, newUserName: string,
                  authUserId: Option<string>, r: JoinResponse): (t: Session)
    ensures !(r.JoinAnswered? && r.success) ==> t == s
    ensures r.JoinAnswered? && r.success ==>
      && t.hooks.isInRoom && t.hooks.roomId == newRoomId && t.hooks.roomUserId == pid
      && t.hooks.userName == newUserName && t.hooks.joinedAuthUserId == authUserId
      && t.hooks.users == (if r.roomUsers.Some? then r.roomUsers.value else s.hooks.users)
      && t.hooks.messages == s.hooks.messages && t.hooks.isProcessing == s.hooks.isProcessing
      && t.hooks.userLanguage == s.hooks.userLanguage && t.hooks.targetLanguage == s.hooks.targetLanguage
      && t.instance == s.instance
  {
    if r.JoinAnswered? && r.success then
      var users := if r.roomUsers.Some? then r.roomUsers.value else s.hooks.users;
      AfterRender(DepsOf(s), s.(hooks := s.hooks.(roomId := newRoomId, userName := newUserName, roomUserId := pid,
                                                  joinedAuthUserId := authUserId, isInRoom := true, users := users)))
    else s
  }

  /**
   * A successful join puts the client in the room under the id derived from
   * the signed-in user (or the anonymous id), remembers that user, and polls
   * whenever the room id is non-empty; a failed join changes nothing but the
   * instance id, and a join whose storage access throws changes nothing.
   */
  lemma JoinOutcome(s: Session, anonUserId: string, newRoomId: string, newUserName: string,
                    authUserId: Option<string>, windowDefined: bool, access: StorageAccess, generated: string,
                    r: JoinResponse)
    requires generated != "" && anonUserId != ""
    requires SessionValid(s)
    ensures var t := Join(s, anonUserId, newRoomId, newUserName, authUserId, windowDefined, access, generated, r);
      && SessionValid(t)
      && (Truthy(authUserId) && InstanceStorageThrows(s.instance, windowDefined, access) ==> t == s)
      && (!(Truthy(authUserId) && InstanceStorageThrows(s.instance, windowDefined, access)) && r.JoinAnswered? && r.success ==>
            && t.hooks == s.hooks.(isInRoom := true, roomId := newRoomId, userName := newUserName,
                                   joinedAuthUserId := authUserId,
                                   roomUserId := ParticipantId(authUserId, t.instance.ref, anonUserId),
                                   users := if r.roomUsers.Some? then r.roomUsers.value else s.hooks.users)
            && (t.pollActive <==> newRoomId != "")
            && t.cache == (if PollGuard(s) && DepsOf(s) != DepsOf(t) then map[] else s.cache))
      && (!(r.JoinAnswered? && r.success) ==> t == s.(instance := t.instance))
      && (!Truthy(authUserId) ==> t.instance == s.instance)
  {
    var t := Join(s, anonUserId, newRoomId, newUserName, authUserId, windowDefined, access, generated, r);
    var ident := JoinIdentity(s.instance, anonUserId, authUserId, windowDefined, access, generated);
    if ident.Some? {
      var (inst, pid) := ident.value;
      var s1 := s.(instance := inst);
      assert t == JoinAs(s1, pid, newRoomId, newUserName, authUserId, r);
      if r.JoinAnswered? && r.success {
        var users := if r.roomUsers.Some? then r.roomUsers.value else s.hooks.users;
        var s2 := s1.(hooks := s1.hooks.(roomId := newRoomId, userName := newUserName, roomUserId := pid,
                                         joinedAuthUserId := authUserId, isInRoom := true, users := users));
        assert t == AfterRender(DepsOf(s1), s2);
        assert pid == ParticipantId(authUserId, inst.ref, anonUserId);
        AfterRenderValid(s1, s2);
      }
    }
  }

  /** What the leave request came back with. */
  datatype LeaveResponse = LeaveAnswered(status: nat) | LeaveFailed

  /** `handleLeaveRoom`: any answer (410 included) exits; a request that threw changes nothing. */
  function Leave(s: Session, r: LeaveResponse): (t: Session)
    ensures r.LeaveAnswered? ==> t == Exit(s)
    ensures r.LeaveFailed? ==> t == s
  {
    if r.LeaveAnswered? then Exit(s) else s
  }

  /** The body of the `message` request sent after a recording. */
  datatype OutgoingMessage = OutgoingMessage(
    id: string, userId: string, userName: string, originalText: string,
    originalLanguage: string, targetLanguage: string, timestamp: string, audioUrl: string)

  /** What sending came back with. */
  datatype SendResponse = SendAnswered(status: nat) | SendFailed

  /** The message posted for a transcribed recording; `None` when transcription threw. */
  function SentMessage(s: Session, transcript: Option<string>, id: string, timestamp: string, audioUrl: string): (m: Option<OutgoingMessage>)
    ensures m.Some? <==> transcript.Some?
    ensures m.Some? ==>
      && m.value.userId == s.hooks.roomUserId && m.value.originalText == transcript.value
      && m.value.originalLanguage == s.hooks.userLanguage.name && m.value.targetLanguage == s.hooks.targetLanguage.name
  {
    if transcript.Some? then
      Some(OutgoingMessage(id, s.hooks.roomUserId, s.hooks.userName, transcript.value, s.hooks.userLanguage.name,
                           s.hooks.targetLanguage.name, timestamp, audioUrl))
    else None
  }

  /** The `finally` of `handleRecordingComplete`: processing is over. */
  function EndProcessing(s: Session): Session {
    s.(hooks := s.hooks.(isProcessing := false))
  }

  /** `handleRecordingComplete`: a 410 from sending exits; in every case processing ends. */
  function RecordingComplete(s: Session, transcript: Option<string>, r: SendResponse): (t: Session)
    ensures !t.hooks.isProcessing
    ensures transcript.Some? && r == SendAnswered(410) ==> t == EndProcessing(Exit(s))
    ensures !(transcript.Some? && r == SendAnswered(410)) ==> t == EndProcessing(s)
  {
    if transcript.Some? && r == SendAnswered(410) then EndProcessing(Exit(s))
    else EndProcessing(s)
  }

  /**
   * A message this client sent, when it comes back in a poll, is marked as
   * the user's own; and one spoken in the language being shown is never
   * sent for translation.
   */
  lemma OwnMessageRecognised(s: Session, transcript: string, id: string, timestamp: string, audioUrl: string,
                             back: ServerMessage)
    requires var m := SentMessage(s, Some(transcript), id, timestamp, audioUrl).value;
      back.id == m.id && back.userId == m.userId && back.originalText == m.originalText
      && back.originalLanguage == m.originalLanguage
    ensures ToMessage(s.cache, map[], s.hooks.roomUserId, s.hooks.targetLanguage.name, back, TranslationFailed).isUser
    ensures s.hooks.userLanguage.name == s.hooks.targetLanguage.name ==>
      Decide(s.cache, back, s.hooks.targetLanguage.name) != NeedsTranslation
  {
  }

  /**
   * `handleLanguageSwap`: spoken and shown language trade places and no
   * other hook changes. The polling effect restarts, and its cache is
   * cleared, only when the shown language's name changes while it polls.
   */
  function SwapLanguages(s: Session): (t: Session)
    ensures t.hooks.userLanguage == s.hooks.targetLanguage && t.hooks.targetLanguage == s.hooks.userLanguage
    ensures t.hooks == s.hooks.(userLanguage := t.hooks.userLanguage, targetLanguage := t.hooks.targetLanguage)
    ensures t.instance == s.instance
    ensures PollGuard(t) == PollGuard(s) && t.pollActive == (s.pollActive || (PollGuard(s) && DepsOf(t) != DepsOf(s)))
    ensures t.cache == (if PollGuard(s) && s.hooks.userLanguage.name != s.hooks.targetLanguage.name then map[] else s.cache)
  {
    AfterRender(DepsOf(s), s.(hooks := s.hooks.(userLanguage := s.hooks.targetLanguage,
                                                targetLanguage := s.hooks.userLanguage)))
  }

  /**
   * Swapping keeps a valid session valid, and swapping twice gives back both
   * languages and everything else, except that the cache was cleared if the
   * shown language's name changed while polling.
   */
  lemma SwapTwice(s: Session)
    requires SessionValid(s)
    ensures SessionValid(SwapLanguages(s)) && SwapLanguages(s).pollActive == s.pollActive
    ensures var t := SwapLanguages(SwapLanguages(s));
      && t.hooks.userLanguage == s.hooks.userLanguage && t.hooks.targetLanguage == s.hooks.targetLanguage
      && t == s.(cache := t.cache)
      && (s.hooks.userLanguage.name == s.hooks.targetLanguage.name || !PollGuard(s) ==> t == s)
      && (s.hooks.userLanguage.name != s.hooks.targetLanguage.name && PollGuard(s) ==> t.cache == map[])
  {
  }

  /**
   * The auth-change effect: it leaves only while in a room, when both the
   * user id recorded at join and the current one are set and they differ.
   */
  predicate LeavesOnAuthChange(s: Session, currentAuthUserId: Option<string>) {
    s.hooks.isInRoom && Truthy(s.hooks.joinedAuthUserId) && Truthy(currentAuthUserId)
    && currentAuthUserId.value != s.hooks.joinedAuthUserId.value
  }

  /**
   * No leave after an exit, after an anonymous join, or while the same user
   * who joined is still signed in; a different signed-in user does trigger it.
   */
  lemma AuthChangeLeaves(s: Session, anonUserId: string, newRoomId: string, newUserName: string,
                         authUserId: Option<string>, windowDefined: bool, access: StorageAccess, generated: string,
                         users: seq<User>, current: Option<string>)
    requires generated != ""
    ensures !LeavesOnAuthChange(Exit(s), current)
    ensures JoinIdentity(s.instance, anonUserId, authUserId, windowDefined, access, generated).Some? ==>
      var t := Join(s, anonUserId, newRoomId, newUserName, authUserId, windowDefined, access, generated,
                    JoinAnswered(true, Some(users)));
      && !LeavesOnAuthChange(t, authUserId)
      && (!Truthy(authUserId) ==> !LeavesOnAuthChange(t, current))
      && (Truthy(authUserId) && Truthy(current) && current.value != authUserId.value ==> LeavesOnAuthChange(t, current))
  {
  }

  // ---------------------------------------------------------------------
  // The component itself

  class RoomClient {
    const anonUserId: string
    var hooks: Hooks                             // the `useState` values
    var pollActive: bool                         // `pollIntervalRef.current !== null`
    var clientInstanceId: string                 // `clientInstanceIdRef.current`
    var sessionStorage: map<string, string>
    var translationCache: map<string, string>    // `translationCacheRef.current`

    function State(): Session
      reads this
    {
      Session(hooks, pollActive, InstanceState(clientInstanceId, sessionStorage), translationCache)
    }

    ghost predicate Valid()
      reads this
    {
      anonUserId != "" && SessionValid(State())
    }

    /** Mounting the component; `anonSuffix` stands for the random part of "user-…". */
    constructor (anonSuffix: string, storage: map<string, string>)
      ensures Valid() && anonUserId == "user-" + anonSuffix
      ensures State() == InitialSession(storage)
    {
      anonUserId := "user-" + anonSuffix;
      hooks := Hooks(false, "", "", None, "", [], [], SupportedLanguages[0], SupportedLanguages[1], false);
      pollActive := false;
      clientInstanceId, sessionStorage, translationCache := "", storage, map[];
    }

    /** The render after a handler that may have changed the polling effect's dependencies. */
    method Rerender(before: PollDeps)
      modifies this`pollActive, this`translationCache
      ensures State() == AfterRender(before, old(State()))
    {
      if before != DepsOf(State()) {
        if DepsGuard(before) {
          pollActive := false;
          translationCache := map[];
        }
        if PollGuard(State()) {
          pollActive := true;
        }
      }
    }

    /** `ensureClientInstanceId`; `None` when a storage call threw, and then nothing has changed. */
    method EnsureClientInstanceId(windowDefined: bool, access: StorageAccess, generated: string)
      returns (id: Option<string>)
      requires generated != ""
      modifies this`clientInstanceId, this`sessionStorage
      ensures id.None? ==> EnsureInstance(old(State()).instance, windowDefined, access, generated).None?
                           && unchanged(this)
      ensures id.Some? ==> EnsureInstance(old(State()).instance, windowDefined, access, generated)
                           == Some((State().instance, id.value))
    {
      if clientInstanceId != "" {
        return Some(clientInstanceId);
      }
      if !windowDefined {
        clientInstanceId := generated;
        return Some(generated);
      }
      if access == Blocked {
        return None;                    // `getItem` throws
      }
      var existing := if InstanceStorageKey in sessionStorage then sessionStorage[InstanceStorageKey] else "";
      if existing != "" {
        clientInstanceId := existing;
        return Some(existing);
      }
      if access == Full {
        return None;                    // `setItem` throws
      }
      sessionStorage := sessionStorage[InstanceStorageKey := generated];
      clientInstanceId := generated;
      id := Some(generated);
    }

    /** `exitRoom`; the render after it has nothing left to do (`ExitSettled`). */
    method ExitRoom()
      modifies this`hooks, this`pollActive, this`translationCache
      ensures State() == Exit(old(State()))
    {
      hooks := hooks.(isInRoom := false, roomId := "", messages := [], users := [], roomUserId := "",
                      joinedAuthUserId := None);
      if pollActive {
        pollActive := false;
      }
      translationCache := map[];
    }

    method HandleJoinRoom(newRoomId: string, newUserName: string, authUserId: Option<string>,
                          windowDefined: bool, access: StorageAccess, generated: string, response: JoinResponse)
      requires Valid() && generated != ""
      modifies this`hooks, this`pollActive, this`translationCache, this`clientInstanceId, this`sessionStorage
      ensures Valid()
      ensures State() == Join(old(State()), anonUserId, newRoomId, newUserName, authUserId,
                              windowDefined, access, generated, response)
    {
      ghost var s0 := State();
      var participantId := anonUserId;
      if Truthy(authUserId) {
        var instance := EnsureClientInstanceId(windowDefined, access, generated);
        if instance.None? {
          // the `catch`: a toast, and nothing else
          JoinOutcome(s0, anonUserId, newRoomId, newUserName, authUserId, windowDefined, access, generated, response);
          return;
        }
        participantId := authUserId.value + ":" + instance.value;
      }
      assert JoinIdentity(s0.instance, anonUserId, authUserId, windowDefined, access, generated)
             == Some((State().instance, participantId));
      JoinResponseArrived(participantId, newRoomId, newUserName, authUserId, response);
      JoinOutcome(s0, anonUserId, newRoomId, newUserName, authUserId, windowDefined, access, generated, response);
    }

    /**
     * The rest of `handleJoinRoom`, once the response is in. The setters run
     * in order; `setUsers` is reached only when the body carries the room.
     */
    method JoinResponseArrived(participantId: string, newRoomId: string, newUserName: string,
                               authUserId: Option<string>, response: JoinResponse)
      modifies this`hooks, this`pollActive, this`translationCache
      ensures State() == JoinAs(old(State()), participantId, newRoomId, newUserName, authUserId, response)
    {
      if response.JoinAnswered? && response.success {
        var before := DepsOf(State());
        hooks := hooks.(roomId := newRoomId, userName := newUserName, roomUserId := participantId,
                        joinedAuthUserId := authUserId, isInRoom := true);
        if response.roomUsers.Some? {
          hooks := hooks.(users := response.roomUsers.value);
        }
        Rerender(before);
      }
    }

    /**
     * `pollRoom` applied to one response. The cache is updated in place as
     * each translation succeeds; lookups read the cache as it was on arrival.
     */
    method HandlePollResponse(response: PollResponse, translations: seq<TranslationResult>)
      requires Valid() && TranslationsFit(response, translations)
      modifies this`hooks, this`pollActive, this`translationCache
      ensures Valid()
      ensures State() == ApplyPoll(old(State()), response, translations)
    {
      match response
      case PollGone =>
        ExitRoom();
      case PollFailed =>
      case PollData(success, room) =>
        if !success || room.None? {
          return;
        }
        var snap := room.value;
        hooks := hooks.(users := snap.users);
        var shown := MapMessages(snap, translations);
        hooks := hooks.(messages := shown);
    }

    /**
     * The `room.messages.map` callbacks under `Promise.all`: one entry per
     * server message, in order, each translation stored in the cache in place.
     */
    method MapMessages(snap: RoomSnapshot, translations: seq<TranslationResult>) returns (shown: seq<Message>)
      requires |translations| == |snap.messages|
      modifies this`translationCache
      ensures shown == MapPoll(old(translationCache), snap.users, hooks.roomUserId, hooks.targetLanguage.name,
                               snap.messages, translations)
      ensures translationCache == CacheAfterPoll(old(translationCache), hooks.targetLanguage.name, snap.messages, translations)
    {
      var avatars := AvatarById(snap.users);
      var target := hooks.targetLanguage.name;
      var me := hooks.roomUserId;
      var arrived := translationCache;
      shown := [];
      var i := 0;
      while i < |snap.messages|
        invariant 0 <= i <= |snap.messages|
        invariant shown == MapPoll(arrived, snap.users, me, target, snap.messages[..i], translations[..i])
        invariant translationCache == CacheAfterPoll(arrived, target, snap.messages[..i], translations[..i])
        modifies this`translationCache
      {
        var entry := BuildEntry(arrived, avatars, target, snap.messages[i], translations[i]);
        MapPollStep(arrived, snap.users, me, target, snap.messages, translations, i);
        CacheAfterPollStep(arrived, target, snap.messages, translations, i);
        shown := shown + [entry];
        i := i + 1;
      }
      assert snap.messages[..i] == snap.messages;
      assert translations[..i] == translations;
    }

    /**
     * One `room.messages.map` callback: the entry for `msg`, and the cache
     * write made when its translation succeeds; `arrived` is the cache as
     * the poll found it.
     */
    method BuildEntry(arrived: map<string, string>, avatars: map<string, Option<string>>, target: string,
                      msg: ServerMessage, t: TranslationResult) returns (entry: Message)
      modifies this`translationCache
      ensures entry == ToMessage(arrived, avatars, hooks.roomUserId, target, msg, t)
      ensures translationCache ==
        if WritesCache(arrived, target, msg, t) then old(translationCache)[CacheKey(msg.id, target) := t.text]
        else old(translationCache)
    {
      var key := CacheKey(msg.id, target);
      var translatedText := msg.originalText;
      if key in arrived && arrived[key] != "" {
        translatedText := arrived[key];
      } else if msg.originalLanguage != target {
        if t.Translated? {
          translatedText := t.text;
          translationCache := translationCache[key := translatedText];
        }
      }
      entry := Message(msg.id, msg.userId, msg.userName, msg.originalText, translatedText,
                       msg.originalLanguage, target, msg.timestamp, msg.userId == hooks.roomUserId,
                       msg.audioUrl, AvatarOf(avatars, msg.userId));
    }

    /** `handleLeaveRoom`; `expired` tells the "room expired" notice from the "left" one. */
    method HandleLeaveResponse(response: LeaveResponse) returns (expired: bool)
      requires Valid()
      modifies this`hooks, this`pollActive, this`translationCache
      ensures Valid() && State() == Leave(old(State()), response)
      ensures expired <==> response == LeaveAnswered(410)
    {
      expired := false;
      if response.LeaveFailed? {
        return;
      }
      if response.status == 410 {
        expired := true;
      }
      ExitRoom();
    }

    /**
     * `handleRecordingComplete` once transcription (`None` if it threw) and
     * sending are over; `sent` is the message that was posted, if any.
     */
    method HandleRecordingComplete(transcript: Option<string>, response: SendResponse,
                                   id: string, timestamp: string, audioUrl: string)
      returns (sent: Option<OutgoingMessage>)
      requires Valid()
      modifies this`hooks, this`pollActive, this`translationCache
      ensures Valid() && State() == RecordingComplete(old(State()), transcript, response)
      ensures sent == SentMessage(old(State()), transcript, id, timestamp, audioUrl)
    {
      hooks := hooks.(isProcessing := true);
      sent := None;
      if transcript.Some? {
        sent := Some(OutgoingMessage(id, hooks.roomUserId, hooks.userName, transcript.value, hooks.userLanguage.name,
                                     hooks.targetLanguage.name, timestamp, audioUrl));
        if response == SendAnswered(410) {
          ExitRoom();
        }
      }
      hooks := hooks.(isProcessing := false);
    }

    method HandleLanguageSwap()
      requires Valid()
      modifies this`hooks, this`pollActive, this`translationCache
      ensures Valid() && State() == SwapLanguages(old(State()))
    {
      var before := DepsOf(State());
      hooks := hooks.(userLanguage := hooks.targetLanguage, targetLanguage := hooks.userLanguage);
      Rerender(before);
    }

    /** The auth-change effect: whether it starts `handleLeaveRoom`. */
    method OnAuthUserChange(currentAuthUserId: Option<string>) returns (leave: bool)
      ensures leave <==> LeavesOnAuthChange(State(), currentAuthUserId)
    {
      if !hooks.isInRoom { return false; }
      if !Truthy(hooks.joinedAuthUserId) { return false; }
      if !Truthy(currentAuthUserId) { return false; }
      if currentAuthUserId.value == hooks.joinedAuthUserId.value { return false; }
      leave := true;
    }
  }
}
