/**
 * The community post list (`app/community/page.tsx`): the fetched rows
 * with their author's profile image lifted out of the nested `profiles`
 * object, and the card each post becomes, where an anonymous post hides
 * its author's name and picture.
 */
module CommunityList {
  import opened Options
  import opened Text
  import opened Seqs

  /** The author's profile as the join returns it. */
  datatype ProfileRef = ProfileRef(profileImage: Option<string>)

  /** A row of `community_posts` joined with `profiles(profile_image)`. */
  datatype FetchedPost = FetchedPost(
    id: string,
    userId: string,
    authorName: Option<string>,
    isAnonymous: bool,
    title: string,
    content: string,
    imageUrl: Option<string>,
    createdAt: string,
    likesCount: Option<int>,
    commentsCount: Option<int>,
    profiles: Option<ProfileRef>)

  /** A post as the page keeps it: `profiles` gone, `profile_image` at the top. */
  datatype Post = Post(
    id: string,
    userId: string,
    authorName: Option<string>,
    isAnonymous: bool,
    title: string,
    content: string,
    imageUrl: Option<string>,
    createdAt: string,
    likesCount: Option<int>,
    commentsCount: Option<int>,
    profileImage: Option<string>)

  /** `{ ...post, profile_image: post.profiles?.profile_image, profiles: undefined }`. */
  function Flatten(p: FetchedPost): (q: Post)
    ensures q.profileImage == if p.profiles.Some? then p.profiles.value.profileImage else None
    ensures q.id == p.id && q.userId == p.userId && q.authorName == p.authorName
    ensures q.isAnonymous == p.isAnonymous && q.title == p.title && q.content == p.content
    ensures q.imageUrl == p.imageUrl && q.createdAt == p.createdAt
    ensures q.likesCount == p.likesCount && q.commentsCount == p.commentsCount
  {
    Post(p.id, p.userId, p.authorName, p.isAnonymous, p.title, p.content, p.imageUrl, p.createdAt,
         p.likesCount, p.commentsCount,
         match p.profiles case Some(ref) => ref.profileImage case None => None)
  }

  /** `data?.map(...) || []`: every row flattened, in the order fetched; no data gives no posts. */
  function Transform(data: Option<seq<FetchedPost>>): (posts: seq<Post>)
    ensures data.None? ==> posts == []
    ensures data.Some? ==> (|posts| == |data.value|
      && forall i :: 0 <= i < |posts| ==> posts[i] == Flatten(data.value[i]))
  {
    match data
    case None => []
    case Some(rows) => Map(rows, Flatten)
  }

  /** Flattening only moves the profile image: it is undone by putting the image back under `profiles`. */
  lemma FlattenKeepsEverythingElse(p: FetchedPost)
    requires p.profiles.Some?
    ensures var q := Flatten(p);
      FetchedPost(q.id, q.userId, q.authorName, q.isAnonymous, q.title, q.content, q.imageUrl, q.createdAt,
                  q.likesCount, q.commentsCount, Some(ProfileRef(q.profileImage))) == p
  {
  }

  // ------------------------------------------------------------ cards

  const AnonymousName: string := "익명"
  const AnonymousInitial: string := "익"
  const UnknownInitial: string := "U"

  /** `post.is_anonymous ? '익명' : post.author_name` (a missing name renders as nothing). */
  function DisplayName(p: Post): (s: string)
    ensures p.isAnonymous ==> s == AnonymousName
    ensures !p.isAnonymous ==> s == OrElse(p.authorName, "")
  {
    if p.isAnonymous then AnonymousName else OrElse(p.authorName, "")
  }

  /** `post.is_anonymous ? undefined : post.profile_image || undefined`. */
  function AvatarSrc(p: Post): (src: Option<string>)
    ensures p.isAnonymous ==> src.None?
    ensures src.Some? ==> p.profileImage == src && src.value != []
    ensures !p.isAnonymous && p.profileImage.Some? && p.profileImage.value != [] ==> src == p.profileImage
  {
    if p.isAnonymous then None
    else if p.profileImage.Some? && p.profileImage.value != [] then p.profileImage
    else None
  }

  /**
   * `post.is_anonymous ? '익' : post.author_name?.charAt(0) || 'U'`:
   * always one character.
   */
  function FallbackInitial(p: Post): (s: string)
    ensures |s| == 1
    ensures p.isAnonymous ==> s == AnonymousInitial
    ensures !p.isAnonymous && p.authorName.Some? && p.authorName.value != [] ==> s == [p.authorName.value[0]]
    ensures !p.isAnonymous && (p.authorName.None? || p.authorName.value == []) ==> s == UnknownInitial
  {
    if p.isAnonymous then AnonymousInitial
    else
      var first := match p.authorName case Some(name) => Some(FirstChar(name)) case None => None;
      OrElse(first, UnknownInitial)
  }

  /** `count || 0`: a missing count shows as 0. */
  function CountShown(count: Option<int>): (n: int)
    ensures count.Some? ==> n == count.value
    ensures count.None? ==> n == 0
  {
    if count.Some? && count.value != 0 then count.value else 0
  }

  /** What a post's card shows. */
  datatype Card = Card(
    name: string,
    avatar: Option<string>,
    initial: string,
    title: string,
    content: string,
    likes: int,
    comments: int)

  function CardOf(p: Post): Card {
    Card(DisplayName(p), AvatarSrc(p), FallbackInitial(p), p.title, p.content,
         CountShown(p.likesCount), CountShown(p.commentsCount))
  }

  /**
   * An anonymous post's card is the same whoever wrote it: two anonymous
   * posts that differ only in author name, author id and profile image
   * show identical cards.
   */
  lemma AnonymousHidesAuthor(p: Post, otherName: Option<string>, otherUser: string, otherImage: Option<string>)
    requires p.isAnonymous
    ensures CardOf(p) == CardOf(p.(authorName := otherName, userId := otherUser, profileImage := otherImage))
    ensures CardOf(p).name == AnonymousName && CardOf(p).avatar.None? && CardOf(p).initial == AnonymousInitial
  {
  }

  /** `loading ? ... : posts.length === 0 ? ... : cards`. */
  datatype ListView = LoadingNote | EmptyNote | Cards(cards: seq<Card>)

  function ListOf(loading: bool, posts: seq<Post>): (v: ListView)
    ensures v == LoadingNote <==> loading
    ensures v == EmptyNote <==> !loading && posts == []
    ensures v.Cards? ==> |v.cards| == |posts| && forall i :: 0 <= i < |posts| ==> v.cards[i] == CardOf(posts[i])
  {
    if loading then LoadingNote
    else if |posts| == 0 then EmptyNote
    else Cards(Map(posts, CardOf))
  }

  class CommunityPage {
    var posts: seq<Post>
    var loading: bool

    /** The page starts out loading, with no posts. */
    constructor ()
      ensures posts == [] && loading
    {
      posts := [];
      loading := true;
    }

    /**
     * `fetchPosts` with the rows the backend returns (newest first) or an
     * error: on success the flattened rows replace the list, on an error
     * the list is kept; either way loading ends.
     */
    method FetchPosts(data: Option<seq<FetchedPost>>, fails: bool)
      modifies this
      ensures !loading
      ensures posts == if fails then old(posts) else Transform(data)
    {
      loading := true;
      if !fails {
        posts := Transform(data);
      }
      loading := false;
    }
  }
}
