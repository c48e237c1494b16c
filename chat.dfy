/**
 * The chat panel's bookkeeping (components/ChatPanel.tsx): who is online,
 * whom the listener has blocked, the private dialog partner, the messages
 * and which of them are shown, the participant search, and the classifier
 * for emoji-only messages. Random presence events are inputs; media
 * capture, scrolling and message ids are outside the model.
 */
module Chat {
  import opened Wrappers
  import opened JsText
  import opened Locale
  import opened IdLists
  import opened Profile

  /** At most this many participants are listed as online. */
  const MAX_ONLINE: nat := 15
  const DEFAULT_AVATAR: string := "https://i.pravatar.cc/100?u=me"

  datatype Participant = Participant(name: string, login: string, avatar: string, age: int,
                                     country: string, city: string)

  /** A chat message; `senderId` is "system", "me" or a participant's login. */
  datatype Message = Message(senderId: string, text: Option<string>, image: Option<string>,
                             audio: Option<string>, recipientId: Option<string>)

  datatype SearchFilters = SearchFilters(query: string, age: string, location: string)

  /** `MOCK_POOL`: the simulated community. */
  const MOCK_POOL: seq<Participant> := [
    Participant("CyberPunk", "cyber_p", "https://i.pravatar.cc/100?u=1", 24, "USA", "San Francisco"),
    Participant("GrooveMaster", "groove_m", "https://i.pravatar.cc/100?u=2", 31, "UK", "London"),
    Participant("MelodyHunter", "melody_h", "https://i.pravatar.cc/100?u=3", 19, "France", "Paris"),
    Participant("BassHead", "bass_h", "https://i.pravatar.cc/100?u=4", 27, "Germany", "Berlin"),
    Participant("SynthWave", "synth_w", "https://i.pravatar.cc/100?u=5", 22, "Canada", "Toronto"),
    Participant("TechnoQueen", "techno_q", "https://i.pravatar.cc/100?u=6", 29, "Spain", "Madrid"),
    Participant("ChillVibes", "chill_v", "https://i.pravatar.cc/100?u=7", 21, "Kazakhstan", "Almaty"),
    Participant("RadioStar", "radio_s", "https://i.pravatar.cc/100?u=8", 35, "Russia", "Moscow"),
    Participant("NightDrive", "night_d", "https://i.pravatar.cc/100?u=9", 26, "Italy", "Rome"),
    Participant("ElectricSoul", "elec_s", "https://i.pravatar.cc/100?u=10", 23, "Japan", "Tokyo"),
    Participant("BeatMaker", "beat_m", "https://i.pravatar.cc/100?u=11", 30, "Brazil", "Rio"),
    Participant("SonicWave", "sonic_w", "https://i.pravatar.cc/100?u=12", 20, "Australia", "Sydney"),
    Participant("NeonLight", "neon_l", "https://i.pravatar.cc/100?u=13", 28, "Russia", "Kazan"),
    Participant("DeepHouse", "deep_h", "https://i.pravatar.cc/100?u=14", 33, "Kazakhstan", "Astana"),
    Participant("JazzLover", "jazz_l", "https://i.pravatar.cc/100?u=15", 40, "France", "Lyon"),
    Participant("IberianDJ", "iber_dj", "https://i.pravatar.cc/100?u=16", 25, "Spain", "Barcelona"),
    Participant("Nomad", "nomad_k", "https://i.pravatar.cc/100?u=17", 28, "Kyrgyzstan", "Bishkek")
  ]

  /** JavaScript truthiness of an optional string: present and not empty. */
  predicate Truthy(s: Option<string>) {
    s.Some? && s.value != ""
  }

  // ---- emoji-only classifier ----------------------------------------------

  /** A character of `/[a-zA-Z0-9Ѐ-ӿ]/`: a Latin letter, a digit or a Cyrillic letter. */
  predicate IsWordChar(c: char) {
    'a' <= c <= 'z' || 'A' <= c <= 'Z' || '0' <= c <= '9' || '\U{0400}' <= c <= '\U{04FF}'
  }

  predicate HasWordChar(text: string) {
    exists i :: 0 <= i < |text| && IsWordChar(text[i])
  }

  /** `isEmojiOnly(text)`: shown large when the text has no letters or digits and one to three symbols. */
  predicate IsEmojiOnly(text: string) {
    if text == "" then false
    else
      var isPure := !HasWordChar(text);
      var charCount := |Trim(text)|;
      isPure && charCount > 0 && charCount <= 3
  }

  /** A message is emoji-only exactly when it is not blank, has no letter or digit, and trims to at most three symbols. */
  lemma EmojiOnlyMeans(text: string)
    ensures IsEmojiOnly(text) <==> !AllWhitespace(text) && !HasWordChar(text) && |Trim(text)| <= 3
  {
    TrimEmpty(text);
  }

  // ---- presence -----------------------------------------------------------

  /** `prev.some(p => p.login === login)`. */
  predicate LoginOnline(participants: seq<Participant>, login: string) {
    exists i :: 0 <= i < |participants| && participants[i].login == login
  }

  /** `prev.filter(p => p.login !== login)`. */
  function WithoutLogin(participants: seq<Participant>, login: string): (r: seq<Participant>)
    ensures |r| <= |participants|
    ensures forall p :: p in r <==> p in participants && p.login != login
  {
    if participants == [] then []
    else (if participants[0].login == login then [] else [participants[0]]) + WithoutLogin(participants[1..], login)
  }

  /** On one participant the filter keeps it exactly when its login differs. */
  lemma WithoutLoginSingle(p: Participant, login: string)
    ensures WithoutLogin([p], login) == if p.login == login then [] else [p]
  {
    assert [p][1..] == [];
  }

  /**
   * The filter keeps a participant exactly when the login differs, in order and with every
   * copy: it distributes over concatenation, and `WithoutLoginSingle` gives its
   * effect on one participant.
   */
  lemma {:induction false} WithoutLoginConcat(a: seq<Participant>, b: seq<Participant>, login: string)
    ensures WithoutLogin(a + b, login) == WithoutLogin(a, login) + WithoutLogin(b, login)
    decreases |a|
  {
    if a == [] {
      assert a + b == b;
    } else {
      assert (a + b)[1..] == a[1..] + b;
      WithoutLoginConcat(a[1..], b, login);
    }
  }

  /** The presence updater for the drawn participant `mock`: an arrival at the front, or a departure. */
  function PresenceStep(prev: seq<Participant>, mock: Participant): (r: seq<Participant>)
    ensures !LoginOnline(prev, mock.login) ==>
      |r| == Min(|prev| + 1, MAX_ONLINE) && r[0] == mock && r[1..] == prev[..|r| - 1]
    ensures LoginOnline(prev, mock.login) ==>
      !LoginOnline(r, mock.login) && forall p :: p in r <==> p in prev && p.login != mock.login
    ensures |prev| <= MAX_ONLINE ==> |r| <= MAX_ONLINE
  {
    if !LoginOnline(prev, mock.login) then ([mock] + prev)[..Min(|prev| + 1, MAX_ONLINE)]
    else WithoutLogin(prev, mock.login)
  }

  /** Filtering out a login nobody has changes nothing. */
  lemma {:induction false} WithoutAbsentLogin(participants: seq<Participant>, login: string)
    requires !LoginOnline(participants, login)
    ensures WithoutLogin(participants, login) == participants
  {
    if participants != [] {
      assert !LoginOnline(participants[1..], login) by {
        forall i | 0 <= i < |participants[1..]| ensures participants[1..][i].login != login {
          assert participants[1..][i] == participants[i + 1];
        }
      }
      WithoutAbsentLogin(participants[1..], login);
      assert participants == [participants[0]] + participants[1..];
    }
  }

  /** Below the cap, an arrival followed by the same participant's departure restores the list. */
  lemma ArrivalThenDeparture(prev: seq<Participant>, mock: Participant)
    requires !LoginOnline(prev, mock.login) && |prev| < MAX_ONLINE
    ensures PresenceStep(PresenceStep(prev, mock), mock) == prev
  {
    var once := PresenceStep(prev, mock);
    assert once == [mock] + prev;
    assert LoginOnline(once, mock.login) by {
      assert once[0].login == mock.login;
    }
    assert once[1..] == prev;
    WithoutAbsentLogin(prev, mock.login);
  }

  // ---- search ---------------------------------------------------------------

  /** The search predicate of `filteredParticipants`. */
  predicate MatchesSearch(p: Participant, filters: SearchFilters) {
    var q := ToLower(filters.query);
    var loc := ToLower(filters.location);
    var matchName := Contains(ToLower(p.name), q) || Contains(ToLower(p.login), q);
    var matchAge := if filters.age != "" then IntToString(p.age) == filters.age else true;
    var matchLoc := Contains(ToLower(p.country), loc) || Contains(ToLower(p.city), loc);
    matchName && matchAge && matchLoc
  }

  /** `pool.filter(...)`, keeping order. */
  function SearchPool(pool: seq<Participant>, filters: SearchFilters): (r: seq<Participant>)
    ensures |r| <= |pool|
    ensures forall p :: p in r <==> p in pool && MatchesSearch(p, filters)
  {
    if pool == [] then []
    else (if MatchesSearch(pool[0], filters) then [pool[0]] else []) + SearchPool(pool[1..], filters)
  }

  /** On one participant the search keeps it exactly when it matches. */
  lemma SearchPoolSingle(p: Participant, filters: SearchFilters)
    ensures SearchPool([p], filters) == if MatchesSearch(p, filters) then [p] else []
  {
    assert [p][1..] == [];
  }

  /**
   * The search keeps a participant exactly when it matches, in order and with every copy: it
   * distributes over concatenation, and `SearchPoolSingle` gives its effect on one participant.
   */
  lemma {:induction false} SearchPoolConcat(a: seq<Participant>, b: seq<Participant>, filters: SearchFilters)
    ensures SearchPool(a + b, filters) == SearchPool(a, filters) + SearchPool(b, filters)
    decreases |a|
  {
    if a == [] {
      assert a + b == b;
    } else {
      assert (a + b)[1..] == a[1..] + b;
      SearchPoolConcat(a[1..], b, filters);
    }
  }

  /** `filteredParticipants`: the pool filtered by the search in search mode, the online list otherwise. */
  function FilteredParticipants(showSearch: bool, filters: SearchFilters, online: seq<Participant>): seq<Participant> {
    if showSearch then SearchPool(MOCK_POOL, filters) else online
  }

  /** With every field empty, the search shows the whole pool in its order. */
  lemma {:induction false} EmptySearchShowsAll(pool: seq<Participant>)
    ensures SearchPool(pool, SearchFilters("", "", "")) == pool
  {
    if pool != [] {
      var p := pool[0];
      assert StartsWith(ToLower(p.name), "");
      assert StartsWith(ToLower(p.country), "");
      EmptySearchShowsAll(pool[1..]);
      assert pool == [p] + pool[1..];
    }
  }

  // ---- messages -------------------------------------------------------------

  /** Whether a message is shown, for the given dialog partner (none: the global hub). */
  predicate IsVisible(m: Message, partner: Option<Participant>) {
    if m.senderId == "system" then partner.None?
    else if partner.Some? then m.recipientId == Some(partner.value.login) || m.senderId == partner.value.login
    else !Truthy(m.recipientId)
  }

  /** `messages.filter(...)`, keeping order. */
  function Visible(messages: seq<Message>, partner: Option<Participant>): (r: seq<Message>)
    ensures |r| <= |messages|
    ensures forall m :: m in r <==> m in messages && IsVisible(m, partner)
  {
    if messages == [] then []
    else (if IsVisible(messages[0], partner) then [messages[0]] else []) + Visible(messages[1..], partner)
  }

  /** On one message the view keeps it exactly when it is visible. */
  lemma VisibleSingle(m: Message, partner: Option<Participant>)
    ensures Visible([m], partner) == if IsVisible(m, partner) then [m] else []
  {
    assert [m][1..] == [];
  }

  /**
   * The view keeps a message exactly when it is visible, in order and with every copy: it
   * distributes over concatenation, and `VisibleSingle` gives its effect on one message.
   */
  lemma {:induction false} VisibleConcat(a: seq<Message>, b: seq<Message>, partner: Option<Participant>)
    ensures Visible(a + b, partner) == Visible(a, partner) + Visible(b, partner)
    decreases |a|
  {
    if a == [] {
      assert a + b == b;
    } else {
      assert (a + b)[1..] == a[1..] + b;
      VisibleConcat(a[1..], b, partner);
    }
  }

  /** The hub's greeting, the panel's first message: Russian for `ru`, English otherwise. */
  function Greeting(language: Language): string {
    if language == Ru then "\U{1F30D} Глобальный чат StreamFlow активен!" else "\U{1F30D} Global Hub is Active!"
  }

  /** The system notice that opens a dialog with `p`. */
  function InviteNotice(p: Participant, language: Language): Message {
    var text := if language == Ru then "Вы начали диалог с @" + p.name + ". Приветствуйте собеседника!"
                else "You started a dialog with @" + p.name + ". Say hi!";
    Message("system", Some(text), None, None, None)
  }

  /** The login a new message is addressed to: the partner's, or none in the hub. */
  function RecipientOf(partner: Option<Participant>): Option<string> {
    if partner.Some? then Some(partner.value.login) else None
  }

  /** A message the listener sends is shown in the view it was sent from, whichever that is. */
  lemma SentMessageShown(partner: Option<Participant>, text: Option<string>, image: Option<string>,
                         audio: Option<string>)
    ensures IsVisible(Message("me", text, image, audio, RecipientOf(partner)), partner)
  {
  }

  /** The dialog notice is a system message: hidden while the dialog it announces is open, shown in the hub. */
  lemma InviteNoticeOnlyInHub(p: Participant, language: Language)
    ensures !IsVisible(InviteNotice(p, language), Some(p))
    ensures IsVisible(InviteNotice(p, language), None)
  {
  }

  /** The chat panel's state. */
  class ChatPanel {
    var messages: seq<Message>
    var onlineParticipants: seq<Participant>
    var activePartner: Option<Participant>
    var blockedLogins: seq<string>
    var inputText: string
    var showEmojiPicker: bool
    var showSearch: bool
    var searchFilters: SearchFilters
    var hasSentWelcome: bool

    /** The online list never exceeds its cap. */
    predicate Valid()
      reads this`onlineParticipants
    {
      |onlineParticipants| <= MAX_ONLINE
    }

    /** The panel as first mounted: the greeting only, nobody online, no partner. */
    constructor (language: Language)
      ensures Valid()
      ensures messages == [Message("system", Some(Greeting(language)), None, None, None)]
      ensures onlineParticipants == [] && activePartner == None && blockedLogins == []
      ensures inputText == "" && !showEmojiPicker && !showSearch && searchFilters == SearchFilters("", "", "")
      ensures !hasSentWelcome
    {
      messages := [Message("system", Some(Greeting(language)), None, None, None)];
      onlineParticipants := [];
      activePartner := None;
      blockedLogins := [];
      inputText := "";
      showEmojiPicker := false;
      showSearch := false;
      searchFilters := SearchFilters("", "", "");
      hasSentWelcome := false;
    }

    /** The shown messages, `visibleMessages`. */
    function VisibleMessages(): seq<Message>
      reads this
    {
      Visible(messages, activePartner)
    }

    /** The initial join: once, and only with a name, the listener is the one online participant. */
    method Join(user: UserProfile)
      requires Valid()
      modifies this`onlineParticipants, this`hasSentWelcome
      ensures Valid()
      ensures !old(hasSentWelcome) && user.name != "" ==>
        hasSentWelcome &&
        onlineParticipants == [Participant(user.name, ToLower(user.name),
                                           if Truthy(user.avatar) then user.avatar.value else DEFAULT_AVATAR,
                                           user.age, user.country, user.city)]
      ensures !(!old(hasSentWelcome) && user.name != "") ==>
        onlineParticipants == old(onlineParticipants) && hasSentWelcome == old(hasSentWelcome)
    {
      if !hasSentWelcome && user.name != "" {
        var avatar := if Truthy(user.avatar) then user.avatar.value else DEFAULT_AVATAR;
        onlineParticipants := [Participant(user.name, ToLower(user.name), avatar, user.age, user.country, user.city)];
        hasSentWelcome := true;
      }
    }

    /** A presence event that drew `mock` (events fire only outside search mode). */
    method PresenceEvent(mock: Participant)
      requires Valid()
      modifies this`onlineParticipants
      ensures Valid()
      ensures !old(showSearch) ==> onlineParticipants == PresenceStep(old(onlineParticipants), mock)
      ensures old(showSearch) ==> onlineParticipants == old(onlineParticipants)
      ensures showSearch == old(showSearch)
    {
      if !showSearch {
        var alreadyOnline := LoginOnline(onlineParticipants, mock.login);
        if !alreadyOnline {
          onlineParticipants := ([mock] + onlineParticipants)[..Min(|onlineParticipants| + 1, MAX_ONLINE)];
        } else {
          onlineParticipants := WithoutLogin(onlineParticipants, mock.login);
        }
      }
    }

    /** The search button: search mode flips and any dialog is left. */
    method ToggleSearch()
      requires Valid()
      modifies this`showSearch, this`activePartner
      ensures Valid()
      ensures showSearch == !old(showSearch) && activePartner == None
    {
      showSearch := !showSearch;
      activePartner := None;
    }

    /**
     * `handleInvite(p)`: one's own login is ignored; a blocked login raises
     * the "blocked" alert and changes nothing; anyone else becomes the
     * partner and one system notice is appended.
     */
    method HandleInvite(p: Participant, currentUserName: string, language: Language) returns (blockedAlert: bool)
      requires Valid()
      modifies this`activePartner, this`messages
      ensures Valid()
      ensures blockedAlert <==> p.login != ToLower(currentUserName) && p.login in old(blockedLogins)
      ensures p.login == ToLower(currentUserName) || p.login in old(blockedLogins) ==>
        activePartner == old(activePartner) && messages == old(messages)
      ensures p.login != ToLower(currentUserName) && p.login !in old(blockedLogins) ==>
        activePartner == Some(p) && messages == old(messages) + [InviteNotice(p, language)]
    {
      if p.login == ToLower(currentUserName) {
        return false;
      }
      if p.login in blockedLogins {
        return true;
      }
      activePartner := Some(p);
      messages := messages + [InviteNotice(p, language)];
      blockedAlert := false;
    }

    /** `toggleBlock(login)`: blocks or unblocks, leaving the dialog with that login either way. */
    method ToggleBlock(login: string)
      requires Valid()
      modifies this`blockedLogins, this`activePartner
      ensures Valid()
      ensures login == "" ==> blockedLogins == old(blockedLogins) && activePartner == old(activePartner)
      ensures login != "" ==> blockedLogins == Toggled(old(blockedLogins), login)
      ensures login != "" && old(activePartner).Some? && old(activePartner).value.login == login ==> activePartner == None
      ensures !(login != "" && old(activePartner).Some? && old(activePartner).value.login == login) ==>
        activePartner == old(activePartner)
    {
      if login == "" {
        return;
      }
      blockedLogins := Toggled(blockedLogins, login);
      if activePartner.Some? && activePartner.value.login == login {
        activePartner := None;
      }
    }

    /** `sendMessage(text, image, audio)`: with any content, one message from "me" to the partner (if any). */
    method SendMessage(text: Option<string>, image: Option<string>, audio: Option<string>)
      requires Valid()
      modifies this`messages, this`inputText, this`showEmojiPicker
      ensures Valid()
      ensures !Truthy(text) && !Truthy(image) && !Truthy(audio) ==>
        messages == old(messages) && inputText == old(inputText) && showEmojiPicker == old(showEmojiPicker)
      ensures Truthy(text) || Truthy(image) || Truthy(audio) ==>
        messages == old(messages) + [Message("me", text, image, audio, RecipientOf(activePartner))] &&
        inputText == "" && !showEmojiPicker
    {
      if !Truthy(text) && !Truthy(image) && !Truthy(audio) {
        return;
      }
      var recipient := if activePartner.Some? then Some(activePartner.value.login) else None;
      messages := messages + [Message("me", text, image, audio, recipient)];
      inputText := "";
      showEmojiPicker := false;
    }
  }

  /** Blocking a login and toggling it again unblocks it and restores the block list exactly. */
  lemma BlockThenUnblock(blocked: seq<string>, login: string)
    requires login !in blocked
    ensures login in Toggled(blocked, login)
    ensures Toggled(Toggled(blocked, login), login) == blocked
  {
    ToggleTwice(blocked, login);
  }
}
