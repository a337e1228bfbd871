/**
 * The records the pages exchange: movies, poll options, polls and users.
 * Besides the fields the shared type declarations name, `Poll` carries the optional fields the
 * poll list and the poll card read from the server's records (`duration`, `is_active`,
 * `image_url`, `created_at`, `category`).
 */
module Types {
  import opened Wrappers

  datatype Status = Active | Closed | Draft

  datatype MediaKind = Image | Video

  datatype Media = Media(kind: MediaKind, url: string)

  datatype Movie = Movie(id: string, title: string, poster: string, genre: string,
                         releaseDate: string, rating: real)

  datatype PollOption = PollOption(id: string, movie: Movie, votes: int)

  /** A poll. `duration` is the closing time of the server's `duration` field, already read as
      milliseconds since the epoch; it is `None` when the field is absent or empty.
      `isActive` is the server's `is_active`, `imageUrl` its `image_url` and
      `serverCreatedAt` its `created_at`. */
  datatype Poll = Poll(
    id: string,
    question: string,
    description: Option<string>,
    options: seq<PollOption>,
    deadline: string,
    status: Status,
    createdBy: string,
    createdAt: string,
    media: Option<Media>,
    totalVotes: int,
    userVote: Option<string>,
    duration: Option<int>,
    isActive: Option<bool>,
    imageUrl: Option<string>,
    serverCreatedAt: Option<string>,
    category: Option<string>)

  datatype User = User(id: string, name: string, email: string,
                       preferredCinemas: seq<string>, isAdmin: Option<bool>)

  /** The vote count of an option: the key the rankings sort on. */
  function OptionVotes(o: PollOption): int {
    o.votes
  }

  /** The vote total of a poll: the key of the "popular" ordering. */
  function PollTotal(p: Poll): int {
    p.totalVotes
  }

  /** `user?.isAdmin` is truthy; it is falsy for a missing user, a missing flag and a false
      flag alike. */
  function IsAdminUser(u: Option<User>): (a: bool)
    ensures !a <==> u == None || u.value.isAdmin == None || u.value.isAdmin == Some(false)
  {
    match u
    case None => false
    case Some(user) =>
      match user.isAdmin
      case None => false
      case Some(flag) => flag
  }
}
