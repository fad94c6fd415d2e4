/**
 * The create/edit session form: its starting values, the duration field's
 * fallback, and the two YouTube helpers behind the video preview.
 */
module CreateSessionForm {
  import opened Wrappers
  import opened YouTube

  const EmbedBase: string := "https://www.youtube.com/embed/"

  /** The embed address for the preview: the base followed by the id, or empty when there is no id. */
  function FormEmbedUrl(url: string): (r: string)
    ensures ExtractVideoId(url).None? ==> r == ""
    ensures ExtractVideoId(url).Some? ==> r == EmbedBase + ExtractVideoId(url).value && |r| > |EmbedBase|
  {
    match ExtractVideoId(url)
    case None => ""
    case Some(id) => EmbedBase + id
  }

  /** Whether the pattern matches anywhere in the text. */
  function IsValidYouTubeUrl(url: string): (r: bool)
    ensures r <==> exists j :: 0 <= j < |url| && MatchesAt(url, j)
  {
    MatchesFrom(url, 0)
  }

  /** The validity test and the embed builder agree: a link is valid exactly when it yields an embed address. */
  lemma ValidIffEmbed(url: string)
    ensures IsValidYouTubeUrl(url) <==> FormEmbedUrl(url) != ""
  {
    if IsValidYouTubeUrl(url) {
      var j :| 0 <= j < |url| && MatchesAt(url, j);
      assert FindMatch(url).Some?;
    } else {
      assert forall j: nat :: !MatchesAt(url, j) by {
        forall j: nat ensures !MatchesAt(url, j) {
          if j < |url| {
            assert !(0 <= j < |url| && MatchesAt(url, j));
          }
        }
      }
    }
  }

  /** A watch link for an id previews that id. */
  lemma WatchLinkEmbed(id: string)
    requires id != [] && forall k :: 0 <= k < |id| ==> IdChar(id[k])
    ensures FormEmbedUrl("https://www." + WatchMarker + id) == EmbedBase + id
    ensures IsValidYouTubeUrl("https://www." + WatchMarker + id)
  {
    WatchLinkRoundTrip(id);
    ValidIffEmbed("https://www." + WatchMarker + id);
  }

  /** Text that does not contain either marker is never a valid link. */
  lemma NoMarkerNoEmbed(url: string)
    requires forall j: nat :: !HasAt(url, WatchMarker, j) && !HasAt(url, ShortMarker, j)
    ensures FormEmbedUrl(url) == "" && !IsValidYouTubeUrl(url)
  {
    ValidIffEmbed(url);
  }

  /** The form's fields. */
  datatype FormData = FormData(
    title: string,
    description: string,
    sessionType: string,
    duration: int,
    difficulty: string,
    isPublic: bool,
    videoType: string,
    videoUrl: string,
    customVideoFile: string)

  /** The fields of `initialData` that were given (`None` = not given). */
  datatype InitialData = InitialData(
    title: Option<string>,
    description: Option<string>,
    sessionType: Option<string>,
    duration: Option<int>,
    difficulty: Option<string>,
    isPublic: Option<bool>,
    videoType: Option<string>,
    videoUrl: Option<string>,
    customVideoFile: Option<string>)

  const NoInitialData: InitialData := InitialData(None, None, None, None, None, None, None, None, None)

  /** `value || fallback` for a string: the value unless it is missing or empty. */
  function OrText(value: Option<string>, fallback: string): (r: string)
    ensures value.Some? && value.value != "" ==> r == value.value
    ensures value.None? || value.value == "" ==> r == fallback
  {
    if value.Some? && value.value != "" then value.value else fallback
  }

  /** The values the form starts from: each given, non-empty field, else its default. */
  function InitialFormData(initial: InitialData): (f: FormData)
    ensures f.title == OrText(initial.title, "")
    ensures f.description == OrText(initial.description, "")
    ensures f.sessionType == OrText(initial.sessionType, "meditation")
    ensures f.duration == if initial.duration.Some? && initial.duration.value != 0 then initial.duration.value else 10
    ensures f.difficulty == OrText(initial.difficulty, "Beginner")
    ensures f.isPublic == (initial.isPublic == Some(true))
    ensures f.videoType == OrText(initial.videoType, "youtube")
    ensures f.videoUrl == OrText(initial.videoUrl, "")
    ensures f.customVideoFile == OrText(initial.customVideoFile, "")
  {
    FormData(
      OrText(initial.title, ""),
      OrText(initial.description, ""),
      OrText(initial.sessionType, "meditation"),
      DurationOr(initial.duration),
      OrText(initial.difficulty, "Beginner"),
      initial.isPublic.GetOr(false),
      OrText(initial.videoType, "youtube"),
      OrText(initial.videoUrl, ""),
      OrText(initial.customVideoFile, ""))
  }

  /** A form opened without initial data starts from the defaults. */
  lemma BlankFormDefaults()
    ensures InitialFormData(NoInitialData) == FormData("", "", "meditation", 10, "Beginner", false, "youtube", "", "")
  {
  }

  /** Opening the form on the values of a form keeps them all, except a zero duration, which becomes 10. */
  lemma ReopenKeepsValues(f: FormData)
    ensures var again := InitialFormData(InitialData(Some(f.title), Some(f.description), Some(f.sessionType),
                                         Some(f.duration), Some(f.difficulty), Some(f.isPublic),
                                         Some(f.videoType), Some(f.videoUrl), Some(f.customVideoFile)));
            && (f.sessionType != "" && f.difficulty != "" && f.videoType != "" && f.duration != 0 ==> again == f)
            && again.duration != 0
  {
  }

  /**
   * `parsed || 10` for the number typed into the duration field (`None` when
   * it does not parse): 10 for no number or zero, the number otherwise.
   */
  function DurationOr(parsed: Option<int>): (d: int)
    ensures d != 0
    ensures parsed.Some? && parsed.value != 0 ==> d == parsed.value
    ensures parsed.None? || parsed.value == 0 ==> d == 10
  {
    if parsed.Some? && parsed.value != 0 then parsed.value else 10
  }
}
