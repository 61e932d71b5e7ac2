/**
 * The records the front-end receives from the portfolio server: projects,
 * blog posts and the list envelopes around them.
 */
module Content {
  import opened Optional

  /** The signed-in user. The front-end stores it and tests whether it is present, and never looks inside. */
  datatype User = User(profile: string)

  /** A project's state: `'completed'`, `'in-progress'` or `'planned'`. */
  datatype ProjectStatus = Completed | InProgress | Planned

  datatype Project = Project(
    id: string,
    title: string,
    description: string,
    detailedDescription: string,
    technologies: seq<string>,
    githubUrl: string,
    liveUrl: Option<string>,
    imageUrl: string,
    featured: bool,
    category: string,
    status: ProjectStatus,
    startDate: string,
    endDate: Option<string>,
    createdAt: string,
    updatedAt: string)

  datatype BlogPost = BlogPost(
    id: string,
    title: string,
    content: string,
    excerpt: string,
    slug: string,
    tags: seq<string>,
    published: bool,
    featuredImage: Option<string>,
    readTime: int,
    createdAt: string,
    updatedAt: string)

  datatype Pagination = Pagination(page: int, limit: int, total: int, pages: int)

  /** Body of a blog list answer; `pagination` may be absent. */
  datatype BlogListResponse = BlogListResponse(success: bool, data: seq<BlogPost>, pagination: Option<Pagination>)

  /** Body of a project list answer. */
  datatype ProjectListResponse = ProjectListResponse(success: bool, data: seq<Project>)

  /** Body of a single-post answer. */
  datatype PostResponse = PostResponse(success: bool, data: BlogPost)
}
