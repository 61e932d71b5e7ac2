/**
 * The blog half of the admin dashboard (`BlogManager`): the list of all
 * posts, and a form that creates a post or edits the one selected. The
 * form keeps the tags as one comma-separated string; submitting splits it,
 * editing joins the post's tags back into it.
 */
module BlogAdmin {
  import opened Optional
  import opened Remote
  import opened Content
  import opened JsString

  /** The form's fields, as the inputs hold them. */
  datatype BlogForm = BlogForm(
    title: string,
    content: string,
    excerpt: string,
    tags: string,
    published: bool,
    featuredImage: string)

  /** The form after a save or a cancel, and on the first render. */
  function BlankBlogForm(): BlogForm {
    BlogForm("", "", "", "", false, "")
  }

  /** Submitting the blank form sends one empty tag and an empty featured image. */
  lemma BlankBlogFormDraft()
    ensures DraftOf(BlankBlogForm()).tags == [""]
    ensures DraftOf(BlankBlogForm()).featuredImage == ""
  {
  }

  /** The body `handleSubmit` sends: the form, with the tags as a list. */
  datatype BlogDraft = BlogDraft(
    title: string,
    content: string,
    excerpt: string,
    tags: seq<string>,
    published: bool,
    featuredImage: string)

  /** `{...formData, tags: formData.tags.split(',').map(tag => tag.trim())}`. */
  function DraftOf(form: BlogForm): (d: BlogDraft)
    ensures d.title == form.title && d.content == form.content && d.excerpt == form.excerpt
    ensures d.published == form.published && d.featuredImage == form.featuredImage
    ensures |d.tags| >= 1 && forall i :: 0 <= i < |d.tags| ==> IsTrimmed(d.tags[i]) && ',' !in d.tags[i]
    ensures AllSpace(form.tags) ==> d.tags == [""]
  {
    BlogDraft(form.title, form.content, form.excerpt, SplitTrim(form.tags), form.published, form.featuredImage)
  }

  /** The form `handleEdit` fills in from a post: tags joined with `", "`, a missing image as `''`. */
  function FormOf(post: BlogPost): (f: BlogForm)
    ensures f.title == post.title && f.content == post.content && f.excerpt == post.excerpt
    ensures f.published == post.published
    ensures f.tags == Join(post.tags, ", ")
    ensures post.featuredImage.Some? ==> f.featuredImage == post.featuredImage.value
    ensures post.featuredImage.None? ==> f.featuredImage == ""
  {
    BlogForm(post.title, post.content, post.excerpt, Join(post.tags, ", "), post.published, post.featuredImage.GetOr(""))
  }

  /**
   * Editing a post and saving it unchanged sends the post back as it was,
   * provided it has at least one tag and its tags are trimmed and free of
   * commas; a missing featured image is sent as `''`.
   */
  lemma EditThenSubmit(post: BlogPost)
    requires |post.tags| >= 1
    requires forall i :: 0 <= i < |post.tags| ==> IsTrimmed(post.tags[i]) && ',' !in post.tags[i]
    ensures DraftOf(FormOf(post))
      == BlogDraft(post.title, post.content, post.excerpt, post.tags, post.published, post.featuredImage.GetOr(""))
  {
    SplitTrimJoin(post.tags);
  }

  /** Saving an edited post that had no tags sends one empty tag. */
  lemma UntaggedPostGainsEmptyTag(post: BlogPost)
    requires post.tags == []
    ensures DraftOf(FormOf(post)).tags == [""]
  {
    EmptyListReadsBackAsEmptyItem();
  }

  /** The calls the blog manager issues through `adminService`; a write keeps the form it was built from, and sends `DraftOf(form)` as its body. */
  datatype BlogAdminRequest =
    | ListPosts
    | CreatePost(form: BlogForm)
    | UpdatePost(id: string, form: BlogForm)
    | DeletePost(id: string)

  /** The write `handleSubmit` issues: an update of the post being edited, otherwise a creation. */
  function WriteOf(editing: Option<BlogPost>, form: BlogForm): (r: BlogAdminRequest)
    ensures r.UpdatePost? <==> editing.Some?
    ensures r.UpdatePost? ==> r.id == editing.value.id
    ensures r.CreatePost? || r.UpdatePost?
    ensures r.form == form
  {
    match editing
    case Some(post) => UpdatePost(post.id, form)
    case None => CreatePost(form)
  }

  class BlogManager {
    var posts: seq<BlogPost>
    var loading: bool
    var showForm: bool
    var editing: Option<BlogPost>
    var form: BlogForm
    var requests: seq<BlogAdminRequest>

    /** The first render, before the effect loads the list. */
    constructor ()
      ensures posts == [] && loading && !showForm && editing == None && form == BlankBlogForm() && requests == []
    {
      posts := [];
      loading := true;
      showForm := false;
      editing := None;
      form := BlankBlogForm();
      requests := [];
    }

    /** `loadPosts`: the answer replaces the list; a failure keeps it; loading is over either way. */
    method LoadPosts(answer: Outcome<BlogListResponse>)
      modifies this`posts, this`loading, this`requests
      ensures requests == old(requests) + [ListPosts]
      ensures !loading
      ensures posts == if answer.Ok? then answer.value.data else old(posts)
    {
      requests := requests + [ListPosts];
      if answer.Ok? {
        posts := answer.value.data;
      }
      loading := false;
    }

    /**
     * `handleSubmit`: one write; when it succeeds the form closes and
     * resets and the list is loaded once more; when it fails nothing
     * changes but the request log.
     */
    method HandleSubmit(write: Outcome<()>, reload: Outcome<BlogListResponse>) returns (saved: bool)
      modifies this
      ensures saved <==> write.Ok?
      ensures saved ==>
        requests == old(requests) + [WriteOf(old(editing), old(form))] + [ListPosts]
        && !showForm && editing == None && form == BlankBlogForm() && !loading
        && posts == if reload.Ok? then reload.value.data else old(posts)
      ensures !saved ==>
        requests == old(requests) + [WriteOf(old(editing), old(form))]
        && showForm == old(showForm) && editing == old(editing) && form == old(form)
        && loading == old(loading) && posts == old(posts)
    {
      requests := requests + [WriteOf(editing, form)];
      saved := write.Ok?;
      if saved {
        Cancel();
        assert posts == old(posts);
        LoadPosts(reload);
      }
    }

    /** `handleEdit`: select the post, fill the form from it and open the form. */
    method HandleEdit(post: BlogPost)
      modifies this`editing, this`form, this`showForm
      ensures editing == Some(post) && form == FormOf(post) && showForm
    {
      editing := Some(post);
      form := FormOf(post);
      showForm := true;
    }

    /**
     * `handleDelete`: nothing without the user's confirmation; otherwise
     * one delete, followed by one reload when it succeeds.
     */
    method HandleDelete(id: string, confirmed: bool, write: Outcome<()>, reload: Outcome<BlogListResponse>)
      modifies this`posts, this`loading, this`requests
      ensures !confirmed ==> requests == old(requests) && posts == old(posts) && loading == old(loading)
      ensures confirmed && write.Err? ==> requests == old(requests) + [DeletePost(id)] && posts == old(posts) && loading == old(loading)
      ensures confirmed && write.Ok? ==>
        requests == old(requests) + [DeletePost(id)] + [ListPosts] && !loading
        && posts == if reload.Ok? then reload.value.data else old(posts)
    {
      if confirmed {
        requests := requests + [DeletePost(id)];
        if write.Ok? {
          LoadPosts(reload);
        }
      }
    }

    /** The Cancel button: close the form, drop the selection, blank the fields. */
    method Cancel()
      modifies this`showForm, this`editing, this`form
      ensures !showForm && editing == None && form == BlankBlogForm()
    {
      showForm := false;
      editing := None;
      form := BlankBlogForm();
    }

    /** The "New Blog Post" button: it only opens the form. */
    method OpenForm()
      modifies this`showForm
      ensures showForm
    {
      showForm := true;
    }

    /** Typing into the form's inputs; the form has no input for the featured image, which keeps its value. */
    method EditFields(title: string, excerpt: string, content: string, tags: string, published: bool)
      modifies this`form
      ensures form == old(form).(title := title, excerpt := excerpt, content := content, tags := tags, published := published)
      ensures form.featuredImage == old(form.featuredImage)
    {
      form := form.(title := title, excerpt := excerpt, content := content, tags := tags, published := published);
    }
  }
}
