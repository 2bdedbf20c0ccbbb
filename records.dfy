/** The records the application keeps in its two persisted collections
    (projects and users), as the JSON objects look when read back.

    An optional property of a JSON object is an `Option`. A stored project
    whose `title`, `materials` or `steps` property is missing is represented
    with the empty value, which every reader treats like the missing one. */
module Records {

  datatype Option<T> = None | Some(value: T) {
    /** `x || d` for an optional property whose present values are truthy. */
    function GetOr(d: T): T {
      match this
      case Some(v) => v
      case None => d
    }
  }

  /** A JavaScript string property that is present and not `''`. */
  predicate Truthy(o: Option<string>) {
    o.Some? && o.value != ""
  }

  datatype Status = Draft | Completed

  /** One building step; `image` holds a data-URI string. */
  datatype Step = Step(id: string, text: string, image: Option<string>)

  /** A comment; `timestamp` is the instant it was written, in milliseconds
      (the value `new Date(timestamp).getTime()` reads back). */
  datatype Comment = Comment(
    id: string,
    userId: string,
    username: string,
    avatar: Option<string>,
    text: string,
    timestamp: int)

  datatype Social = Social(comments: seq<Comment>, awards: seq<string>, madeItPhotos: seq<string>)

  /** The reaction counters. `badge` is the separate key that a `'badge'`
      reaction writes; it is absent until the first such reaction. */
  datatype Reactions = Reactions(love: int, appreciate: int, badges: int, badge: Option<int>)

  datatype Project = Project(
    id: string,
    title: string,
    description: string,
    materials: seq<string>,
    steps: seq<Step>,
    status: Option<Status>,
    lastEdited: Option<string>,
    authorId: Option<string>,
    views: Option<int>,
    reactions: Option<Reactions>,
    social: Option<Social>)

  datatype User = User(
    id: string,
    username: string,
    email: Option<string>,
    avatar: Option<string>,
    points: int,
    badges: seq<string>,
    bio: Option<string>,
    isMock: Option<bool>)

  function ProjectId(p: Project): string { p.id }
  function UserId(u: User): string { u.id }
  function StepId(s: Step): string { s.id }

  /** `p.status === 'completed'`. */
  predicate IsCompleted(p: Project) {
    p.status == Some(Completed)
  }

  /** The `{ comments: [], awards: [], madeItPhotos: [] }` default. */
  const NoSocial := Social([], [], [])

  /** `p.social || NoSocial`. */
  function SocialOf(p: Project): Social {
    p.social.GetOr(NoSocial)
  }
}
