/**
 * The session catalogue: the user-created sessions under one storage key and
 * the public sessions under another, each seeded with built-in defaults the
 * first time it is read while absent.
 */
module Sessions {
  import opened Wrappers
  import opened Storage
  import Sequences

  datatype WellnessSession = WellnessSession(
    id: string,
    title: string,
    description: string,
    sessionType: string,     // 'meditation' | 'yoga' | 'mindfulness' | 'breathing'
    duration: int,           // minutes
    difficulty: string,      // 'beginner' | 'intermediate' | 'advanced'
    instructor: Option<string>,
    isPublic: bool,
    createdBy: string,
    createdAt: Timestamp)

  /** What `createSession` is given: a session without its id and creation time. */
  datatype SessionDraft = SessionDraft(
    title: string,
    description: string,
    sessionType: string,
    duration: int,
    difficulty: string,
    instructor: Option<string>,
    isPublic: bool,
    createdBy: string)

  /** A partial session: the fields `updateSession` overrides (`None` = key not given). */
  datatype SessionPatch = SessionPatch(
    id: Option<string>,
    title: Option<string>,
    description: Option<string>,
    sessionType: Option<string>,
    duration: Option<int>,
    difficulty: Option<string>,
    instructor: Option<string>,
    isPublic: Option<bool>,
    createdBy: Option<string>,
    createdAt: Option<Timestamp>)

  const DayMillis: int := 86400000

  /** The default sessions' titles and descriptions. */
  const MorningTitle: string := "Morning Mindfulness"
  const MorningAbout: string := "Start your day with peaceful awareness and gentle breathing exercises."
  const BreathingTitle: string := "Deep Breathing for Stress Relief"
  const BreathingAbout: string := "Calm your mind and reduce stress with guided breathing techniques."
  const YogaTitle: string := "Gentle Yoga Flow"
  const YogaAbout: string := "A soothing yoga sequence perfect for relaxation and flexibility."
  const EveningTitle: string := "Evening Meditation"
  const EveningAbout: string := "Wind down with this calming meditation to prepare for restful sleep."
  const WalkingTitle: string := "Advanced Mindful Walking"
  const WalkingAbout: string := "Combine movement with mindfulness in this walking meditation practice."
  const PracticeTitle: string := "My Personal Breathing Practice"
  const PracticeAbout: string := "A customized breathing exercise I created for daily stress management."
  const CheckInTitle: string := "Quick Mindfulness Check-in"
  const CheckInAbout: string := "A brief mindfulness session for busy days when I need to center myself."

  /** The five built-in public sessions; `loadedAt` is when the module was loaded. */
  function DefaultPublicSessions(loadedAt: Timestamp): (r: seq<WellnessSession>)
    ensures |r| == 5
    ensures forall i :: 0 <= i < |r| ==> r[i].isPublic && r[i].createdBy == "system" && r[i].createdAt == loadedAt
  {
    [ WellnessSession("1", MorningTitle, MorningAbout,
        "mindfulness", 10, "beginner", Some("Sarah Chen"), true, "system", loadedAt),
      WellnessSession("2", BreathingTitle, BreathingAbout,
        "breathing", 15, "beginner", Some("Marcus Thompson"), true, "system", loadedAt),
      WellnessSession("3", YogaTitle, YogaAbout,
        "yoga", 30, "intermediate", Some("Lila Patel"), true, "system", loadedAt),
      WellnessSession("4", EveningTitle, EveningAbout,
        "meditation", 20, "beginner", Some("David Kim"), true, "system", loadedAt),
      WellnessSession("5", WalkingTitle, WalkingAbout,
        "mindfulness", 25, "advanced", Some("Emma Rodriguez"), true, "system", loadedAt) ]
  }

  /** The two built-in private sessions for first-time users, dated one and two days before loading. */
  function DefaultUserSessions(loadedAt: Timestamp): (r: seq<WellnessSession>)
    ensures |r| == 2
    ensures forall i :: 0 <= i < |r| ==> !r[i].isPublic && r[i].createdBy == "user" && r[i].createdAt < loadedAt
  {
    [ WellnessSession("user-1", PracticeTitle, PracticeAbout,
        "breathing", 12, "beginner", None, false, "user", loadedAt - DayMillis),
      WellnessSession("user-2", CheckInTitle, CheckInAbout,
        "mindfulness", 5, "beginner", None, false, "user", loadedAt - 2 * DayMillis) ]
  }

  function OwnedBy(userId: string): WellnessSession -> bool {
    (s: WellnessSession) => s.createdBy == userId
  }

  function HasId(id: string): WellnessSession -> bool {
    (s: WellnessSession) => s.id == id
  }

  function LacksId(id: string): WellnessSession -> bool {
    (s: WellnessSession) => s.id != id
  }

  /** The default user sessions handed to `userId`. */
  function SeedFor(userId: string, defaults: seq<WellnessSession>): (r: seq<WellnessSession>)
    ensures |r| == |defaults|
    ensures forall i :: 0 <= i < |r| ==> r[i] == defaults[i].(createdBy := userId)
  {
    Sequences.Map(defaults, (s: WellnessSession) => s.(createdBy := userId))
  }

  /** The seed belongs entirely to its user, so reading that user's sessions back returns all of it. */
  lemma SeedIsOwned(userId: string, defaults: seq<WellnessSession>)
    ensures Sequences.Filter(SeedFor(userId, defaults), OwnedBy(userId)) == SeedFor(userId, defaults)
  {
    Sequences.FilterKeepsAll(SeedFor(userId, defaults), OwnedBy(userId));
  }

  /** The patch that gives no field. */
  const NoChanges: SessionPatch := SessionPatch(None, None, None, None, None, None, None, None, None, None)

  /** `{ ...session, ...updates }`: each field given in the patch replaces the stored one. */
  function Merge(s: WellnessSession, patch: SessionPatch): (r: WellnessSession)
    ensures patch == NoChanges ==> r == s
    ensures patch.id.None? && patch.createdBy.None? && patch.createdAt.None? ==>
              r.id == s.id && r.createdBy == s.createdBy && r.createdAt == s.createdAt
  {
    WellnessSession(
      patch.id.GetOr(s.id),
      patch.title.GetOr(s.title),
      patch.description.GetOr(s.description),
      patch.sessionType.GetOr(s.sessionType),
      patch.duration.GetOr(s.duration),
      patch.difficulty.GetOr(s.difficulty),
      if patch.instructor.Some? then patch.instructor else s.instructor,
      patch.isPublic.GetOr(s.isPublic),
      patch.createdBy.GetOr(s.createdBy),
      patch.createdAt.GetOr(s.createdAt))
  }

  /** Applying the same update twice is applying it once. */
  lemma MergeTwice(s: WellnessSession, patch: SessionPatch)
    ensures Merge(Merge(s, patch), patch) == Merge(s, patch)
  {
  }

  /** `Omit<WellnessSession, 'id' | 'createdAt'>`: a session without its id and creation time. */
  function DraftOf(s: WellnessSession): SessionDraft {
    SessionDraft(s.title, s.description, s.sessionType, s.duration, s.difficulty, s.instructor, s.isPublic, s.createdBy)
  }

  /** The session `createSession` builds: exactly the draft's fields plus the id and the creation time. */
  function Created(draft: SessionDraft, id: string, now: Timestamp): (s: WellnessSession)
    ensures DraftOf(s) == draft && s.id == id && s.createdAt == now
    ensures forall t :: DraftOf(t) == draft && t.id == id && t.createdAt == now ==> t == s
  {
    WellnessSession(id, draft.title, draft.description, draft.sessionType, draft.duration,
                    draft.difficulty, draft.instructor, draft.isPublic, draft.createdBy, now)
  }

  /**
   * The list `deleteSession` keeps: every session except those with the id. It
   * is shorter exactly when some session had the id.
   */
  function WithoutId(sessions: seq<WellnessSession>, id: string): (r: seq<WellnessSession>)
    ensures forall s :: s in r <==> s in sessions && s.id != id
    ensures |r| == |sessions| <==> forall i :: 0 <= i < |sessions| ==> sessions[i].id != id
    ensures (forall i :: 0 <= i < |sessions| ==> sessions[i].id != id) ==> r == sessions
  {
    Sequences.FilterKeepsAll(sessions, LacksId(id));
    Sequences.Filter(sessions, LacksId(id))
  }

  class SessionsStore {
    /** `DEFAULT_PUBLIC_SESSIONS`, built once when the module is loaded. */
    const publicDefaults: seq<WellnessSession>
    /** `DEFAULT_USER_SESSIONS`, built once when the module is loaded. */
    const userDefaults: seq<WellnessSession>
    /** The `wellness_sessions` key: every user's own sessions. */
    var userSlot: Slot<WellnessSession>
    /** The `wellness_public_sessions` key. */
    var publicSlot: Slot<WellnessSession>

    /** The service as loaded at `loadedAt`, over the two keys' current contents. */
    constructor (loadedAt: Timestamp, userSlot: Slot<WellnessSession>, publicSlot: Slot<WellnessSession>)
      ensures publicDefaults == DefaultPublicSessions(loadedAt)
      ensures userDefaults == DefaultUserSessions(loadedAt)
      ensures this.userSlot == userSlot && this.publicSlot == publicSlot
    {
      publicDefaults := DefaultPublicSessions(loadedAt);
      userDefaults := DefaultUserSessions(loadedAt);
      this.userSlot := userSlot;
      this.publicSlot := publicSlot;
    }

    /** The stored public list when there is one (even an empty one); otherwise the defaults, now stored. */
    method GetPublicSessions() returns (r: seq<WellnessSession>)
      modifies this`publicSlot
      ensures old(publicSlot).Stored? ==> r == old(publicSlot).items && publicSlot == old(publicSlot)
      ensures !old(publicSlot).Stored? ==> r == publicDefaults && publicSlot == Stored(r)
    {
      if publicSlot.Stored? {
        return publicSlot.items;
      }
      publicSlot := Stored(publicDefaults);
      r := publicDefaults;
    }

    /**
     * The sessions created by the user, in stored order. When the key is absent
     * or does not parse, the whole key is replaced by the default sessions
     * handed to this user, and those are returned.
     */
    method GetUserSessions(userId: string) returns (r: seq<WellnessSession>)
      modifies this`userSlot
      ensures old(userSlot).Stored? ==>
        && userSlot == old(userSlot)
        && r == Sequences.Filter(old(userSlot).items, OwnedBy(userId))
      ensures !old(userSlot).Stored? ==>
        && r == SeedFor(userId, userDefaults)
        && userSlot == Stored(r)
      ensures forall s :: s in r <==> s in userSlot.Contents() && s.createdBy == userId
    {
      if userSlot.Stored? {
        return Sequences.Filter(userSlot.items, OwnedBy(userId));
      }
      var userSessions := SeedFor(userId, userDefaults);
      SaveSessions(userSessions);
      r := userSessions;
    }

    /** Appends a new session with the given id and creation time; an unreadable list is replaced. */
    method CreateSession(draft: SessionDraft, freshId: string, now: Timestamp) returns (s: WellnessSession)
      modifies this`userSlot
      ensures s == Created(draft, freshId, now)
      ensures userSlot == Stored(old(GetAllSessions()) + [s])
    {
      s := Created(draft, freshId, now);
      var existingSessions := GetAllSessions();
      existingSessions := existingSessions + [s];
      SaveSessions(existingSessions);
    }

    /**
     * Overrides the fields given in `updates` on the first session with the id
     * and returns it; with no such session, returns null and writes nothing.
     */
    method UpdateSession(sessionId: string, updates: SessionPatch) returns (r: Option<WellnessSession>)
      modifies this`userSlot
      ensures var sessions := old(GetAllSessions());
              match Sequences.FirstIndex(sessions, HasId(sessionId))
              case None => r.None? && userSlot == old(userSlot)
              case Some(i) =>
                && r == Some(Merge(sessions[i], updates))
                && userSlot == Stored(sessions[i := Merge(sessions[i], updates)])
      ensures r.None? <==> forall s :: s in old(GetAllSessions()) ==> s.id != sessionId
    {
      var sessions := GetAllSessions();
      var sessionIndex := Sequences.FirstIndex(sessions, HasId(sessionId));
      if sessionIndex.None? {
        return None;
      }
      var i := sessionIndex.value;
      sessions := sessions[i := Merge(sessions[i], updates)];
      SaveSessions(sessions);
      r := Some(sessions[i]);
    }

    /** Removes every session with the id and answers whether there was one; writes only then. */
    method DeleteSession(sessionId: string) returns (found: bool)
      modifies this`userSlot
      ensures found <==> exists s :: s in old(GetAllSessions()) && s.id == sessionId
      ensures found ==> userSlot == Stored(WithoutId(old(GetAllSessions()), sessionId))
      ensures !found ==> userSlot == old(userSlot)
    {
      var sessions := GetAllSessions();
      var filteredSessions := WithoutId(sessions, sessionId);
      if |filteredSessions| == |sessions| {
        return false;
      }
      SaveSessions(filteredSessions);
      found := true;
    }

    /** The stored list, or the empty list when the key is absent or does not parse. */
    function GetAllSessions(): (r: seq<WellnessSession>)
      reads this
      ensures userSlot.Stored? ==> r == userSlot.items
      ensures !userSlot.Stored? ==> r == []
    {
      userSlot.Contents()
    }

    /** Replaces the whole user-sessions key. */
    method SaveSessions(sessions: seq<WellnessSession>)
      modifies this`userSlot
      ensures userSlot == Stored(sessions)
    {
      userSlot := Stored(sessions);
    }
  }
}
