/**
 * The new-post page (`app/community/new/page.tsx`): title, body, an
 * anonymity switch and an optional image of at most 5 MiB. Submitting
 * checks the trimmed fields, then (after the user lookup) uploads the image
 * under `community/<user>-<ms>.<ext>` and inserts the post, with or without
 * the image; `isSubmitting` is lowered on every way out.
 */
module NewPost {
  import opened Options
  import opened Text

  /** A chosen file: its name and size in bytes. */
  datatype ImageFile = ImageFile(name: string, size: nat)

  /** A row of `community_posts` as the page inserts it. */
  datatype PostRow = PostRow(
    userId: string,
    authorName: string,
    isAnonymous: bool,
    title: string,
    content: string,
    imageUrl: Option<string>,
    likesCount: int,
    commentsCount: int)

  /** 5 MiB. */
  const MaxImageBytes: nat := 5 * 1024 * 1024

  /** The size check of `handleImageSelect`: a file larger than 5 MiB is refused. */
  predicate TooLarge(f: ImageFile) {
    f.size > MaxImageBytes
  }

  /** A file of exactly 5 MiB passes; one byte more does not. */
  lemma SizeLimitBoundary(name: string)
    ensures !TooLarge(ImageFile(name, 5242880))
    ensures TooLarge(ImageFile(name, 5242881))
    ensures forall n: nat :: TooLarge(ImageFile(name, n)) <==> n >= 5242881
  {
  }

  /** The name used when the profile has no nickname. */
  const DefaultAuthor: string := "사용자"

  /** `imageFile.name.split('.').pop()`. */
  function Extension(name: string): string {
    Last(Split(name, '.'))
  }

  /**
   * The extension is the text after the last '.', or the whole name when
   * it has none; it never contains a '.'.
   */
  lemma ExtensionIsAfterLastDot(name: string)
    ensures var e := Extension(name);
      && '.' !in e
      && |e| <= |name| && e == name[|name| - |e|..]
      && (|e| < |name| ==> name[|name| - |e| - 1] == '.')
      && ('.' !in name ==> e == name)
  {
    SplitLast(name, '.');
    if '.' !in name {
      SplitLastNoSeparator(name, '.');
    }
  }

  /** `community/${user.id}-${Date.now()}.${fileExt}`. */
  function StoragePath(userId: string, nowMs: nat, ext: string): string {
    "community/" + (userId + "-" + NatToString(nowMs) + "." + ext)
  }

  /** The stored object keeps the file's extension, and sits in the `community/` folder. */
  lemma StoragePathKeepsExtension(userId: string, nowMs: nat, name: string)
    ensures var path := StoragePath(userId, nowMs, Extension(name));
      && path[..10] == "community/"
      && Extension(path) == Extension(name)
  {
    ExtensionIsAfterLastDot(name);
    var ext := Extension(name);
    var path := StoragePath(userId, nowMs, ext);
    assert path == ("community/" + userId + "-" + NatToString(nowMs)) + ['.'] + ext;
    SplitLastAfter("community/" + userId + "-" + NatToString(nowMs), '.', ext);
  }

  /**
   * The inserted row: trimmed title and body, counters at zero, and the
   * nickname as author, or "사용자" when the profile or its nickname is
   * missing or empty.
   */
  function NewPostRow(userId: string, nickname: Option<string>, isAnonymous: bool,
                       title: string, content: string, imageUrl: Option<string>): (p: PostRow)
    ensures p.userId == userId && p.isAnonymous == isAnonymous && p.imageUrl == imageUrl
    ensures p.title == Trim(title) && p.content == Trim(content)
    ensures p.likesCount == 0 && p.commentsCount == 0
    ensures p.authorName == if nickname.Some? && nickname.value != [] then nickname.value else DefaultAuthor
    ensures p.authorName != []
  {
    PostRow(userId, OrElse(nickname, DefaultAuthor), isAnonymous, Trim(title), Trim(content), imageUrl, 0, 0)
  }

  /** A title or body that passed the check is stored non-empty, with no white space at either end. */
  lemma StoredTextIsTrimmed(s: string)
    requires !IsBlank(s)
    ensures Trim(s) != []
    ensures !IsWhiteSpace(Trim(s)[0]) && !IsWhiteSpace(Trim(s)[|Trim(s)| - 1])
  {
    TrimEmptyIffBlank(s);
    var t := TrimStart(s);
    assert TrimEnd(t) == t[..|TrimEnd(t)|];
  }

  /** The in-memory stand-in for `community_posts`, newest last. */
  class PostTable {
    var rows: seq<PostRow>

    constructor (initial: seq<PostRow>)
      ensures rows == initial
    {
      rows := initial;
    }

    method Insert(p: PostRow, fails: bool) returns (ok: bool)
      modifies this
      ensures ok == !fails
      ensures rows == if ok then old(rows) + [p] else old(rows)
    {
      ok := !fails;
      if ok {
        rows := rows + [p];
      }
    }
  }

  /** What the handler's closure sees when the button is pressed. */
  datatype Draft = Draft(title: string, content: string, isAnonymous: bool, imageFile: Option<ImageFile>)

  /** How a submission that got past the field check ends. */
  datatype SubmitOutcome = NeedLogin | PostFailed | Posted

  /** Where the router goes afterwards: the login page, nowhere, or the post list. */
  function RedirectOf(o: SubmitOutcome): (r: Option<string>)
    ensures r == Some("/login") <==> o == NeedLogin
    ensures r == Some("/community") <==> o == Posted
    ensures r == None <==> o == PostFailed
  {
    match o
    case NeedLogin => Some("/login")
    case PostFailed => None
    case Posted => Some("/community")
  }

  /**
   * The image step of the submit: with no file nothing is uploaded and the
   * post gets no image; otherwise the file goes to its storage path and the
   * post gets the public URL, unless the upload fails, which only drops the
   * image. Returns the path uploaded to and the image URL for the row.
   */
  method UploadImage(userId: string, imageFile: Option<ImageFile>, nowMs: nat, uploadFails: bool, publicUrl: string)
    returns (uploadPath: Option<string>, imageUrl: Option<string>)
    ensures uploadPath.Some? <==> imageFile.Some?
    ensures imageFile.Some? ==> uploadPath == Some(StoragePath(userId, nowMs, Extension(imageFile.value.name)))
    ensures imageUrl == if imageFile.Some? && !uploadFails then Some(publicUrl) else None
  {
    uploadPath, imageUrl := None, None;
    if imageFile.Some? {
      var fileExt := Extension(imageFile.value.name);
      var fileName := userId + "-" + NatToString(nowMs) + "." + fileExt;
      var filePath := "community/" + fileName;
      uploadPath := Some(filePath);
      if !uploadFails {
        imageUrl := Some(publicUrl);
      }
    }
  }

  /**
   * The signed-in part of the submit: the image step, then the insert of
   * the post row, which goes ahead whether or not the upload worked.
   */
  method Publish(draft: Draft, userId: string, nickname: Option<string>, nowMs: nat,
                 uploadFails: bool, publicUrl: string, posts: PostTable, insertFails: bool)
    returns (ok: bool, uploadPath: Option<string>, imageUrl: Option<string>)
    modifies posts
    ensures ok == !insertFails
    ensures uploadPath == if draft.imageFile.Some?
      then Some(StoragePath(userId, nowMs, Extension(draft.imageFile.value.name))) else None
    ensures imageUrl == if uploadPath.Some? && !uploadFails then Some(publicUrl) else None
    ensures posts.rows == if ok
      then old(posts.rows) + [NewPostRow(userId, nickname, draft.isAnonymous, draft.title, draft.content, imageUrl)]
      else old(posts.rows)
  {
    uploadPath, imageUrl := UploadImage(userId, draft.imageFile, nowMs, uploadFails, publicUrl);
    var row := NewPostRow(userId, nickname, draft.isAnonymous, draft.title, draft.content, imageUrl);
    ok := posts.Insert(row, insertFails);
  }

  class NewPostPage {
    var title: string
    var content: string
    var isAnonymous: bool
    var imageFile: Option<ImageFile>
    var imagePreview: Option<string>
    var isSubmitting: bool

    /** A held file never exceeds the limit. */
    ghost predicate Valid()
      reads this
    {
      imageFile.Some? ==> !TooLarge(imageFile.value)
    }

    constructor ()
      ensures Valid()
      ensures title == "" && content == "" && !isAnonymous
      ensures imageFile == None && imagePreview == None && !isSubmitting
    {
      title := "";
      content := "";
      isAnonymous := false;
      imageFile := None;
      imagePreview := None;
      isSubmitting := false;
    }

    method EditTitle(text: string)
      modifies this
      ensures title == text
      ensures content == old(content) && isAnonymous == old(isAnonymous) && imageFile == old(imageFile)
      ensures imagePreview == old(imagePreview) && isSubmitting == old(isSubmitting)
    {
      title := text;
    }

    method EditContent(text: string)
      modifies this
      ensures content == text
      ensures title == old(title) && isAnonymous == old(isAnonymous) && imageFile == old(imageFile)
      ensures imagePreview == old(imagePreview) && isSubmitting == old(isSubmitting)
    {
      content := text;
    }

    method SetAnonymous(b: bool)
      modifies this
      ensures isAnonymous == b
      ensures title == old(title) && content == old(content) && imageFile == old(imageFile)
      ensures imagePreview == old(imagePreview) && isSubmitting == old(isSubmitting)
    {
      isAnonymous := b;
    }

    /**
     * `handleImageSelect`: no file does nothing; a file over 5 MiB is
     * refused (`rejected`) and nothing changes; otherwise it is held and
     * the preview is read in the background (see `PreviewLoaded`).
     */
    method SelectImage(file: Option<ImageFile>) returns (rejected: bool)
      requires Valid()
      modifies this
      ensures Valid()
      ensures rejected <==> file.Some? && TooLarge(file.value)
      ensures imageFile == if file.Some? && !rejected then file else old(imageFile)
      ensures title == old(title) && content == old(content) && isAnonymous == old(isAnonymous)
      ensures imagePreview == old(imagePreview) && isSubmitting == old(isSubmitting)
    {
      rejected := false;
      if file.Some? {
        if file.value.size > 5 * 1024 * 1024 {
          rejected := true;
          return;
        }
        imageFile := file;
      }
    }

    /** The file reader's `onloadend`: the data URL becomes the preview. */
    method PreviewLoaded(dataUrl: string)
      modifies this
      ensures imagePreview == Some(dataUrl)
      ensures title == old(title) && content == old(content) && isAnonymous == old(isAnonymous)
      ensures imageFile == old(imageFile) && isSubmitting == old(isSubmitting)
    {
      imagePreview := Some(dataUrl);
    }

    /** `handleRemoveImage`: drops both the file and its preview. */
    method RemoveImage()
      modifies this
      ensures imageFile == None && imagePreview == None
      ensures title == old(title) && content == old(content) && isAnonymous == old(isAnonymous)
      ensures isSubmitting == old(isSubmitting)
    {
      imageFile := None;
      imagePreview := None;
    }

    /**
     * The synchronous start of `handleSubmit`: a title or body that trims
     * to nothing stops it with nothing changed; otherwise `isSubmitting` is
     * raised and the closure's view of the form is handed on.
     */
    method StartSubmit() returns (draft: Option<Draft>)
      requires Valid()
      modifies this
      ensures Valid()
      ensures draft.Some? <==> !IsBlank(old(title)) && !IsBlank(old(content))
      ensures draft.Some? ==> draft.value == Draft(title, content, isAnonymous, imageFile) && isSubmitting
      ensures draft.None? ==> isSubmitting == old(isSubmitting)
      ensures title == old(title) && content == old(content) && isAnonymous == old(isAnonymous)
      ensures imageFile == old(imageFile) && imagePreview == old(imagePreview)
    {
      TrimEmptyIffBlank(title);
      TrimEmptyIffBlank(content);
      if Trim(title) == [] || Trim(content) == [] {
        return None;
      }
      isSubmitting := true;
      draft := Some(Draft(title, content, isAnonymous, imageFile));
    }

    /**
     * The rest of `handleSubmit`, given the user lookup, the profile's
     * nickname, the clock, the upload's and the insert's outcomes and the
     * public URL storage would hand back. Without a user nothing is
     * uploaded or inserted. Otherwise the image, if any, is uploaded under
     * its storage path; a failed upload only drops the image: the post is
     * inserted all the same, with no image URL. `isSubmitting` ends lowered
     * on every path.
     */
    method FinishSubmit(draft: Draft, user: Option<string>, nickname: Option<string>, nowMs: nat,
                        uploadFails: bool, publicUrl: string, posts: PostTable, insertFails: bool)
      returns (outcome: SubmitOutcome, uploadPath: Option<string>, uploadFailed: bool, imageUrl: Option<string>)
      requires Valid() && isSubmitting
      modifies this, posts
      ensures Valid() && !isSubmitting
      ensures outcome == NeedLogin <==> user.None?
      ensures outcome == PostFailed <==> user.Some? && insertFails
      ensures outcome == Posted <==> user.Some? && !insertFails
      ensures uploadPath == if user.Some? && draft.imageFile.Some?
        then Some(StoragePath(user.value, nowMs, Extension(draft.imageFile.value.name))) else None
      ensures uploadFailed <==> uploadPath.Some? && uploadFails
      ensures imageUrl == if uploadPath.Some? && !uploadFails then Some(publicUrl) else None
      ensures posts.rows == if outcome == Posted
        then old(posts.rows) + [NewPostRow(user.value, nickname, draft.isAnonymous, draft.title, draft.content, imageUrl)]
        else old(posts.rows)
      ensures title == old(title) && content == old(content) && isAnonymous == old(isAnonymous)
      ensures imageFile == old(imageFile) && imagePreview == old(imagePreview)
    {
      uploadPath, uploadFailed, imageUrl := None, false, None;
      if user.None? {
        outcome := NeedLogin;
        isSubmitting := false;
        return;
      }
      var ok;
      ok, uploadPath, imageUrl := Publish(draft, user.value, nickname, nowMs, uploadFails, publicUrl, posts, insertFails);
      uploadFailed := uploadPath.Some? && uploadFails;
      outcome := if ok then Posted else PostFailed;
      isSubmitting := false;
    }
  }
}
