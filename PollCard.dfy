/**
 * The poll card: what it derives from a poll and the current time. A poll without a closing
 * time counts as open; one with a closing time shows the same countdown as the detail page.
 */
module PollCard {
  import opened Wrappers
  import opened Types
  import Countdown

  /** The media area: the poll's image or video when it has a url, else its `image_url`,
      else nothing. */
  datatype MediaShown = ShowImage(url: string) | ShowVideo(url: string) | NoMedia

  datatype CardView = CardView(
    timeLeft: int,
    hoursLeft: int,
    minutesLeft: int,
    isExpired: bool,
    isActive: bool,
    hasVoted: bool,
    showCountdown: bool,
    media: MediaShown,
    detailsId: string)

  /** The card for poll `p` at time `nowMs` (milliseconds since the epoch). */
  function View(p: Poll, nowMs: int): (v: CardView)
    ensures p.duration.None? ==> !v.isExpired && v.timeLeft == 0 && v.hoursLeft == 0 && v.minutesLeft == 0
    ensures p.duration.Some? ==> v.timeLeft == p.duration.value - nowMs
    ensures p.duration.Some? ==> (v.isExpired <==> v.timeLeft <= 0)
    ensures v.hoursLeft >= 0 && 0 <= v.minutesLeft < 60
    ensures p.duration.Some? ==>
              v.hoursLeft == Countdown.Remaining(v.timeLeft).hoursLeft
              && v.minutesLeft == Countdown.Remaining(v.timeLeft).minutesLeft
    ensures v.isActive <==> p.isActive == Some(true) && !v.isExpired
    ensures v.hasVoted <==> TruthyString(p.userVote)
    ensures v.showCountdown <==> p.duration.Some? && !v.isExpired
    ensures v.detailsId == p.id
  {
    var t := if p.duration.Some? then p.duration.value - nowMs else 0;
    var c := if p.duration.Some? then Countdown.Remaining(t) else Countdown.TimeLeft(0, 0, false);
    CardView(t, c.hoursLeft, c.minutesLeft, c.isExpired,
             p.isActive == Some(true) && !c.isExpired,
             TruthyString(p.userVote),
             !c.isExpired && p.duration.Some?,
             MediaOf(p),
             p.id)
  }

  function MediaOf(p: Poll): (m: MediaShown)
    ensures m.ShowVideo? ==> p.media == Some(Media(Video, m.url)) && m.url != ""
    ensures m.ShowImage? ==> (p.media == Some(Media(Image, m.url)) || p.imageUrl == Some(m.url)) && m.url != ""
    ensures m.NoMedia? <==> (p.media.None? || p.media.value.url == "") && !TruthyString(p.imageUrl)
    ensures p.media.Some? && p.media.value.url != "" ==> !m.NoMedia? && m.url == p.media.value.url
    ensures p.media.Some? && p.media.value.url != "" ==> (m.ShowVideo? <==> p.media.value.kind == Video)
  {
    if p.media.Some? && p.media.value.url != "" then
      match p.media.value.kind
      case Image => ShowImage(p.media.value.url)
      case Video => ShowVideo(p.media.value.url)
    else if TruthyString(p.imageUrl) then ShowImage(p.imageUrl.value)
    else NoMedia
  }

  /** Every expired poll is shown as Closed, whatever its `is_active` says. */
  lemma ExpiredShowsClosed(p: Poll, nowMs: int)
    requires p.duration.Some? && p.duration.value <= nowMs
    ensures View(p, nowMs).isExpired && !View(p, nowMs).isActive
  {
  }

  /** The badge reads Active exactly for a poll marked active whose closing time is still
      ahead or absent. */
  lemma ActiveBadge(p: Poll, nowMs: int)
    ensures View(p, nowMs).isActive <==>
              p.isActive == Some(true) && (p.duration.None? || p.duration.value > nowMs)
  {
  }
}
