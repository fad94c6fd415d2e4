/**
 * The video player dialog: it embeds the session's YouTube video with
 * autoplay, or says the video is not available, or renders nothing at all.
 */
module VideoModal {
  import opened Wrappers
  import opened YouTube
  import CreateSessionForm

  const PlayerParams: string := "?autoplay=1&rel=0&modestbranding=1"

  /** The player's address: the embed base, the id and the player parameters, or empty when there is no id. */
  function ModalEmbedUrl(url: string): (r: string)
    ensures ExtractVideoId(url).None? ==> r == ""
    ensures ExtractVideoId(url).Some? ==> r == CreateSessionForm.EmbedBase + ExtractVideoId(url).value + PlayerParams
  {
    match ExtractVideoId(url)
    case None => ""
    case Some(videoId) => CreateSessionForm.EmbedBase + videoId + PlayerParams
  }

  /**
   * The dialog and the form read links alike: the dialog has a player address
   * exactly when the form calls the link valid, and it is the form's preview
   * address with the player parameters appended.
   */
  lemma ModalAgreesWithForm(url: string)
    ensures ModalEmbedUrl(url) != "" <==> CreateSessionForm.IsValidYouTubeUrl(url)
    ensures ModalEmbedUrl(url) != "" ==> ModalEmbedUrl(url) == CreateSessionForm.FormEmbedUrl(url) + PlayerParams
  {
    CreateSessionForm.ValidIffEmbed(url);
  }

  /** What the dialog needs of a session: its title and its video link (empty when it has none). */
  datatype ModalSession = ModalSession(title: string, videoUrl: string)

  datatype ModalView =
    | NotRendered
    | Player(src: string, title: string)
    | VideoNotAvailable

  /** What the dialog shows for the session it is given. */
  function View(session: Option<ModalSession>): (v: ModalView)
    ensures v.NotRendered? <==> session.None? || session.value.videoUrl == ""
    ensures v.VideoNotAvailable? <==>
      session.Some? && session.value.videoUrl != "" && !CreateSessionForm.IsValidYouTubeUrl(session.value.videoUrl)
    ensures v.Player? ==> v.src == ModalEmbedUrl(session.value.videoUrl) && v.src != "" && v.title == session.value.title
  {
    ModalAgreesWithForm(if session.Some? then session.value.videoUrl else "");
    if session.None? || session.value.videoUrl == "" then NotRendered
    else
      var embedUrl := ModalEmbedUrl(session.value.videoUrl);
      if embedUrl != "" then Player(embedUrl, session.value.title) else VideoNotAvailable
  }

  /** A session with a watch link plays that video. */
  lemma WatchLinkPlays(title: string, id: string)
    requires id != [] && forall k :: 0 <= k < |id| ==> IdChar(id[k])
    ensures View(Some(ModalSession(title, "https://www." + WatchMarker + id)))
         == Player(CreateSessionForm.EmbedBase + id + PlayerParams, title)
  {
    WatchLinkRoundTrip(id);
  }
}
