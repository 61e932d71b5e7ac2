/**
 * The view-data hooks `useBlogPosts` and `useProjects`: each keeps a list,
 * a loading flag and an error message, and refetches when its arguments
 * change. A fetch is one step: it starts (`Begin`) and then settles with
 * the awaited answer (`Settle`); interleavings of overlapping fetches are
 * not modelled.
 */
module Hooks {
  import opened Optional
  import opened Remote
  import opened Content

  const BlogPostsFailed: string := "Failed to fetch blog posts"
  const ProjectsFailed: string := "Failed to fetch projects"

  /** `blogService.getPosts(page, limit)`. */
  datatype BlogQuery = GetPosts(page: int, limit: int)

  /** `useBlogPosts(page = 1, limit = 10)`. */
  class BlogPostsHook {
    var page: int
    var limit: int
    var posts: seq<BlogPost>
    var loading: bool
    var error: Option<string>
    var pagination: Option<Pagination>
    var requests: seq<BlogQuery>

    /** While loading there is no error, and the only error is the fixed message. */
    predicate Valid()
      reads this
    {
      (loading ==> error == None) && (error == None || error == Some(BlogPostsFailed))
    }

    /** The first render, before the effect runs; an absent argument takes its default. */
    constructor (page: Option<int>, limit: Option<int>)
      ensures Valid()
      ensures this.page == page.GetOr(1) && this.limit == limit.GetOr(10)
      ensures posts == [] && loading && error == None && pagination == None && requests == []
    {
      this.page := page.GetOr(1);
      this.limit := limit.GetOr(10);
      posts := [];
      loading := true;
      error := None;
      pagination := None;
      requests := [];
    }

    /** The fetch starts: loading, no error, the request for the current page issued. */
    method Begin()
      modifies this`loading, this`error, this`requests
      ensures Valid()
      ensures loading && error == None
      ensures requests == old(requests) + [GetPosts(page, limit)]
    {
      loading := true;
      error := None;
      requests := requests + [GetPosts(page, limit)];
    }

    /** The fetch settles: the answer replaces the list and pagination, or the error is set and they stay. */
    method Settle(answer: Outcome<BlogListResponse>)
      requires Valid()
      modifies this`posts, this`pagination, this`error, this`loading
      ensures Valid() && !loading
      ensures answer.Ok? ==> posts == answer.value.data && pagination == answer.value.pagination && error == old(error)
      ensures answer.Err? ==> posts == old(posts) && pagination == old(pagination) && error == Some(BlogPostsFailed)
    {
      match answer {
        case Ok(body) =>
          posts := body.data;
          pagination := body.pagination;
        case Err(_) =>
          error := Some(BlogPostsFailed);
      }
      loading := false;
    }

    /** `fetchPosts`, from start to settle. */
    method Fetch(answer: Outcome<BlogListResponse>)
      modifies this`posts, this`pagination, this`error, this`loading, this`requests
      ensures Valid() && !loading
      ensures requests == old(requests) + [GetPosts(page, limit)]
      ensures answer.Ok? ==> posts == answer.value.data && pagination == answer.value.pagination && error == None
      ensures answer.Err? ==> posts == old(posts) && pagination == old(pagination) && error == Some(BlogPostsFailed)
    {
      Begin();
      Settle(answer);
    }

    /** A later render: the effect runs again only when `page` or `limit` changed. */
    method Rerender(page: int, limit: int, answer: Outcome<BlogListResponse>)
      requires Valid()
      modifies this
      ensures Valid()
      ensures this.page == page && this.limit == limit
      ensures (page, limit) == old((this.page, this.limit)) ==>
        posts == old(posts) && pagination == old(pagination) && error == old(error)
        && loading == old(loading) && requests == old(requests)
      ensures (page, limit) != old((this.page, this.limit)) ==>
        !loading && requests == old(requests) + [GetPosts(page, limit)]
        && (answer.Ok? ==> posts == answer.value.data && pagination == answer.value.pagination && error == None)
        && (answer.Err? ==> posts == old(posts) && pagination == old(pagination) && error == Some(BlogPostsFailed))
    {
      if page != this.page || limit != this.limit {
        this.page := page;
        this.limit := limit;
        Fetch(answer);
      }
    }
  }

  /** `projectService.getProjects(category)`: the category goes into the query only when it is a non-empty string. */
  function CategoryParams(category: Option<string>): (p: Option<string>)
    ensures p.Some? <==> category.Some? && category.value != ""
    ensures p.Some? ==> p == category
  {
    if category.Some? && category.value != "" then category else None
  }

  /** The projects page's choice: `'all'` asks for no category. */
  function SelectedCategory(selected: string): (c: Option<string>)
    ensures c.None? <==> selected == "all"
    ensures c.Some? ==> c.value == selected
  {
    if selected == "all" then None else Some(selected)
  }

  /** The projects page sends a category filter unless `'all'` is selected. */
  lemma AllMeansNoFilter(selected: string)
    ensures CategoryParams(SelectedCategory(selected)) == None <==> selected == "all" || selected == ""
    ensures selected != "all" && selected != "" ==> CategoryParams(SelectedCategory(selected)) == Some(selected)
  {
  }

  /** `projectService.getProjects` with the query it sends. */
  datatype ProjectQuery = GetProjects(category: Option<string>)

  /** `useProjects(category?)`. */
  class ProjectsHook {
    var category: Option<string>
    var projects: seq<Project>
    var loading: bool
    var error: Option<string>
    var requests: seq<ProjectQuery>

    predicate Valid()
      reads this
    {
      (loading ==> error == None) && (error == None || error == Some(ProjectsFailed))
    }

    /** The first render, before the effect runs. */
    constructor (category: Option<string>)
      ensures Valid()
      ensures this.category == category
      ensures projects == [] && loading && error == None && requests == []
    {
      this.category := category;
      projects := [];
      loading := true;
      error := None;
      requests := [];
    }

    method Begin()
      modifies this`loading, this`error, this`requests
      ensures Valid()
      ensures loading && error == None
      ensures requests == old(requests) + [GetProjects(CategoryParams(category))]
    {
      loading := true;
      error := None;
      requests := requests + [GetProjects(CategoryParams(category))];
    }

    method Settle(answer: Outcome<ProjectListResponse>)
      requires Valid()
      modifies this`projects, this`error, this`loading
      ensures Valid() && !loading
      ensures answer.Ok? ==> projects == answer.value.data && error == old(error)
      ensures answer.Err? ==> projects == old(projects) && error == Some(ProjectsFailed)
    {
      match answer {
        case Ok(body) =>
          projects := body.data;
        case Err(_) =>
          error := Some(ProjectsFailed);
      }
      loading := false;
    }

    /** `fetchProjects`, from start to settle. */
    method Fetch(answer: Outcome<ProjectListResponse>)
      modifies this`projects, this`error, this`loading, this`requests
      ensures Valid() && !loading
      ensures requests == old(requests) + [GetProjects(CategoryParams(category))]
      ensures answer.Ok? ==> projects == answer.value.data && error == None
      ensures answer.Err? ==> projects == old(projects) && error == Some(ProjectsFailed)
    {
      Begin();
      Settle(answer);
    }

    /** A later render: the effect runs again only when `category` changed. */
    method Rerender(category: Option<string>, answer: Outcome<ProjectListResponse>)
      requires Valid()
      modifies this
      ensures Valid()
      ensures this.category == category
      ensures category == old(this.category) ==>
        projects == old(projects) && error == old(error) && loading == old(loading) && requests == old(requests)
      ensures category != old(this.category) ==>
        !loading && requests == old(requests) + [GetProjects(CategoryParams(category))]
        && (answer.Ok? ==> projects == answer.value.data && error == None)
        && (answer.Err? ==> projects == old(projects) && error == Some(ProjectsFailed))
    {
      if category != this.category {
        this.category := category;
        Fetch(answer);
      }
    }
  }
}
