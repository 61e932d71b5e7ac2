/**
 * The single-post page (`BlogPost`): it loads the post named by the URL's
 * slug and shows a placeholder while loading, a not-found card, or the
 * article, whose text goes through `FormatBlogContent`.
 */
module BlogPostPage {
  import opened Optional
  import opened Remote
  import opened Content

  const NoSlug: string := "No blog post specified"
  const NotFoundError: string := "Blog post not found"
  const DefaultNotFound: string := "The requested blog post could not be found."

  /** What the page renders. */
  datatype View = Loading | NotFound(message: string) | Article(post: BlogPost)

  class PostPage {
    var slug: Option<string>
    var post: Option<BlogPost>
    var loading: bool
    var error: Option<string>
    var requests: seq<string>

    /** Every message the page sets is one of its two fixed, non-empty messages. */
    predicate Valid()
      reads this
    {
      error == None || error == Some(NoSlug) || error == Some(NotFoundError)
    }

    /** The first render, before the effect runs. */
    constructor (slug: Option<string>)
      ensures Valid()
      ensures this.slug == slug && post == None && loading && error == None && requests == []
    {
      this.slug := slug;
      post := None;
      loading := true;
      error := None;
      requests := [];
    }

    /**
     * `fetchPost`: without a slug, the fixed message and no request;
     * otherwise one request for the slug, whose answer becomes the post, or
     * whose failure sets the not-found message and keeps the post. Loading
     * is over afterwards.
     */
    method FetchPost(answer: Outcome<PostResponse>)
      requires Valid()
      modifies this`post, this`loading, this`error, this`requests
      ensures Valid() && !loading
      ensures !Truthy(slug) ==> error == Some(NoSlug) && requests == old(requests) && post == old(post)
      ensures Truthy(slug) ==> requests == old(requests) + [slug.value]
      ensures Truthy(slug) && answer.Ok? ==> post == Some(answer.value.data) && error == None
      ensures Truthy(slug) && answer.Err? ==> post == old(post) && error == Some(NotFoundError)
      ensures Render() == if !Truthy(slug) then NotFound(NoSlug)
        else if answer.Ok? then Article(answer.value.data)
        else NotFound(NotFoundError)
    {
      if !Truthy(slug) {
        error := Some(NoSlug);
        loading := false;
        return;
      }
      loading := true;
      error := None;
      requests := requests + [slug.value];
      match answer {
        case Ok(body) =>
          post := Some(body.data);
        case Err(_) =>
          error := Some(NotFoundError);
      }
      loading := false;
    }

    /**
     * A later render: the effect runs again exactly when the slug changed,
     * and then ends as `FetchPost` does for the new slug.
     */
    method Rerender(slug: Option<string>, answer: Outcome<PostResponse>)
      requires Valid()
      modifies this
      ensures Valid() && this.slug == slug
      ensures slug == old(this.slug) ==>
        post == old(post) && loading == old(loading) && error == old(error) && requests == old(requests)
      ensures slug != old(this.slug) ==> !loading
      ensures slug != old(this.slug) && !Truthy(slug) ==>
        error == Some(NoSlug) && requests == old(requests) && post == old(post)
      ensures slug != old(this.slug) && Truthy(slug) ==> requests == old(requests) + [slug.value]
      ensures slug != old(this.slug) && Truthy(slug) && answer.Ok? ==> post == Some(answer.value.data) && error == None
      ensures slug != old(this.slug) && Truthy(slug) && answer.Err? ==> post == old(post) && error == Some(NotFoundError)
    {
      if slug != this.slug {
        this.slug := slug;
        FetchPost(answer);
      }
    }

    /**
     * The branch the page renders: the placeholder while loading; then the
     * not-found card exactly when an error is set or there is no post, with
     * the error as its message or the default one.
     */
    function Render(): (v: View)
      reads this
      ensures v.Loading? <==> loading
      ensures v.NotFound? <==> !loading && (Truthy(error) || post.None?)
      ensures v.NotFound? ==> v.message == if Truthy(error) then error.value else DefaultNotFound
      ensures v.Article? ==> post == Some(v.post) && !Truthy(error)
    {
      if loading then Loading
      else if Truthy(error) || post.None? then NotFound(if Truthy(error) then error.value else DefaultNotFound)
      else Article(post.value)
    }
  }
}
