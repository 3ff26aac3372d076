/** The `posts` table and its create and update body schemas. */
module PostSchema {
  import opened Common

  /** A row of `posts`; times are milliseconds. */
  datatype Post = Post(
    id: int, title: string, content: string, coverImage: string, isDraft: bool,
    userId: int, createdAt: int, updatedAt: int)

  /** A create body. It has no owner field: the owner comes from the session. */
  datatype PostCreateBody = PostCreateBody(title: string, content: string, coverImage: string, isDraft: Option<bool>)

  /** What the create schema produces. */
  datatype PostFields = PostFields(title: string, content: string, coverImage: string, isDraft: bool)

  /** An update body: every field may be absent. */
  datatype PostUpdateBody = PostUpdateBody(
    title: Option<string>, content: Option<string>, coverImage: Option<string>, isDraft: Option<bool>)

  /** What the update schema produces; `isDraft` is always present (see ParsePostUpdate). */
  datatype PostPatch = PostPatch(
    title: Option<string>, content: Option<string>, coverImage: Option<string>, isDraft: bool)

  const TitleMin := 2
  const TitleMax := 255
  const ContentMin := 2
  const ContentMax := 20000
  const CoverImageMin := 2
  const CoverImageMax := 2048

  const TitleTooShort := "Post title must be at least 2 characters long"
  const TitleTooLong := "Post title must be less than 255 characters long"
  const ContentTooShort := "Post content must be at least 2 characters long"
  const ContentTooLong := "Too big: expected string to have <=20000 characters"
  const CoverImageTooShort := "Cover image must be at least 2 characters long"
  const CoverImageTooLong := "Too big: expected string to have <=2048 characters"

  /** A `min(lo)` then `max(hi)` string check; none of the post fields is trimmed. */
  function LengthIssues(s: string, lo: int, hi: int, tooShort: string, tooLong: string): seq<string> {
    (if |s| < lo then [tooShort] else []) + (if |s| > hi then [tooLong] else [])
  }

  function TitleIssues(s: string): seq<string> { LengthIssues(s, TitleMin, TitleMax, TitleTooShort, TitleTooLong) }
  function ContentIssues(s: string): seq<string> { LengthIssues(s, ContentMin, ContentMax, ContentTooShort, ContentTooLong) }
  function CoverImageIssues(s: string): seq<string> {
    LengthIssues(s, CoverImageMin, CoverImageMax, CoverImageTooShort, CoverImageTooLong)
  }

  /** An optional field is checked only when present. */
  function OptionalIssues(s: Option<string>, check: string -> seq<string>): seq<string> {
    if s.Some? then check(s.value) else []
  }

  predicate FieldsInBounds(title: string, content: string, coverImage: string) {
    && TitleMin <= |title| <= TitleMax
    && ContentMin <= |content| <= ContentMax
    && CoverImageMin <= |coverImage| <= CoverImageMax
  }

  /** `postCreateSchema.safeParse`: bounded fields, taken as given; `isDraft` defaults to true. */
  function ParsePostCreate(body: PostCreateBody): (r: SafeParse<PostFields>)
    ensures r.ParseOk? <==> FieldsInBounds(body.title, body.content, body.coverImage)
    ensures r.ParseOk? ==>
      && r.data.title == body.title && r.data.content == body.content && r.data.coverImage == body.coverImage
      && r.data.isDraft == body.isDraft.GetOr(true)
  {
    FromIssues(TitleIssues(body.title) + ContentIssues(body.content) + CoverImageIssues(body.coverImage),
               PostFields(body.title, body.content, body.coverImage, body.isDraft.GetOr(true)))
  }

  /**
   * `postUpdateSchema.safeParse`: each present field has the create bounds. `isDraft` is
   * `z.boolean().default(true).optional()`, and Zod 4 applies a default inside an optional,
   * so an update without `isDraft` yields `isDraft: true`.
   */
  function ParsePostUpdate(body: PostUpdateBody): (r: SafeParse<PostPatch>)
    ensures r.ParseOk? <==>
      && (body.title.Some? ==> TitleMin <= |body.title.value| <= TitleMax)
      && (body.content.Some? ==> ContentMin <= |body.content.value| <= ContentMax)
      && (body.coverImage.Some? ==> CoverImageMin <= |body.coverImage.value| <= CoverImageMax)
    ensures r.ParseOk? ==>
      && r.data.title == body.title && r.data.content == body.content && r.data.coverImage == body.coverImage
      && r.data.isDraft == body.isDraft.GetOr(true)
  {
    FromIssues(OptionalIssues(body.title, TitleIssues) + OptionalIssues(body.content, ContentIssues)
               + OptionalIssues(body.coverImage, CoverImageIssues),
               PostPatch(body.title, body.content, body.coverImage, body.isDraft.GetOr(true)))
  }
}
