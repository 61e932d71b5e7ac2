/**
 * The project half of the admin dashboard (`ProjectManager`): the same
 * list-and-form shape as the blog manager, with the technologies kept as
 * one comma-separated string in the form, optional `liveUrl` and `endDate`,
 * and dates shown as their `YYYY-MM-DD` part.
 */
module ProjectAdmin {
  import opened Optional
  import opened Remote
  import opened Content
  import opened JsString

  /**
   * `new Date(d).toISOString().split('T')[0]` on a timestamp the server
   * sent: the part before the first `T`.
   */
  function DateOnly(d: string): (r: string)
    ensures r <= d && 'T' !in r
    ensures r == d || d[|r|] == 'T'
    ensures 'T' !in d ==> r == d
  {
    SplitHeadIsPrefix(d, 'T');
    assert 'T' !in d ==> Split(d, 'T') == [d] by {
      if 'T' !in d { SplitWithoutSeparator(d, 'T'); }
    }
    Split(d, 'T')[0]
  }

  /** A date already cut to its day is left as it is. */
  lemma DateOnlyIdempotent(d: string)
    ensures DateOnly(DateOnly(d)) == DateOnly(d)
  {
  }

  /** The form's fields, as the inputs hold them. */
  datatype ProjectForm = ProjectForm(
    title: string,
    description: string,
    detailedDescription: string,
    technologies: string,
    githubUrl: string,
    liveUrl: string,
    imageUrl: string,
    featured: bool,
    category: string,
    status: ProjectStatus,
    startDate: string,
    endDate: string)

  /** The form on the first render and after a save or a cancel; `now` is the current time as an ISO timestamp. */
  function BlankProjectForm(now: string): (f: ProjectForm)
    ensures f.startDate == DateOnly(now) && 'T' !in f.startDate
  {
    ProjectForm("", "", "", "", "", "", "", false, "web-dev", Completed, DateOnly(now), "")
  }

  /** Submitting the blank form sends one empty technology and no end date. */
  lemma BlankProjectFormDraft(now: string)
    ensures DraftOf(BlankProjectForm(now)).technologies == [""]
    ensures DraftOf(BlankProjectForm(now)).endDate == None
  {
  }

  /** The body `handleSubmit` sends. */
  datatype ProjectDraft = ProjectDraft(
    title: string,
    description: string,
    detailedDescription: string,
    technologies: seq<string>,
    githubUrl: string,
    liveUrl: string,
    imageUrl: string,
    featured: bool,
    category: string,
    status: ProjectStatus,
    startDate: string,
    endDate: Option<string>)

  /** `endDate || undefined`: an empty end date is left out of the body. */
  function EndDateField(endDate: string): (r: Option<string>)
    ensures r.None? <==> endDate == ""
    ensures r.Some? ==> r.value == endDate
  {
    if endDate == "" then None else Some(endDate)
  }

  /** `{...formData, technologies: split and trimmed, endDate: formData.endDate || undefined}`. */
  function DraftOf(form: ProjectForm): (d: ProjectDraft)
    ensures |d.technologies| >= 1
    ensures forall i :: 0 <= i < |d.technologies| ==> IsTrimmed(d.technologies[i]) && ',' !in d.technologies[i]
    ensures AllSpace(form.technologies) ==> d.technologies == [""]
    ensures d.title == form.title && d.description == form.description
    ensures d.detailedDescription == form.detailedDescription && d.githubUrl == form.githubUrl
    ensures d.imageUrl == form.imageUrl && d.featured == form.featured
    ensures d.category == form.category && d.status == form.status
    ensures d.liveUrl == form.liveUrl && d.startDate == form.startDate
    ensures d.endDate.None? <==> form.endDate == ""
    ensures form.endDate != "" ==> d.endDate == Some(form.endDate)
  {
    ProjectDraft(form.title, form.description, form.detailedDescription, SplitTrim(form.technologies),
      form.githubUrl, form.liveUrl, form.imageUrl, form.featured, form.category, form.status,
      form.startDate, EndDateField(form.endDate))
  }

  /** The end date `handleEdit` shows: the day of a present, non-empty end date, otherwise `''`. */
  function EndDateInput(endDate: Option<string>): (r: string)
    ensures 'T' !in r
    ensures endDate.None? || endDate == Some("") ==> r == ""
    ensures endDate.Some? && endDate.value != "" ==> r == DateOnly(endDate.value)
    ensures endDate.Some? && 'T' !in endDate.value ==> r == endDate.value
  {
    if endDate.Some? && endDate.value != "" then DateOnly(endDate.value) else ""
  }

  /** The form `handleEdit` fills in from a project. */
  function FormOf(p: Project): (f: ProjectForm)
    ensures f.title == p.title && f.description == p.description && f.detailedDescription == p.detailedDescription
    ensures f.githubUrl == p.githubUrl && f.imageUrl == p.imageUrl && f.featured == p.featured
    ensures f.category == p.category && f.status == p.status
    ensures f.technologies == Join(p.technologies, ", ")
    ensures f.liveUrl == p.liveUrl.GetOr("")
    ensures f.startDate == DateOnly(p.startDate) && f.endDate == EndDateInput(p.endDate)
    ensures 'T' !in f.startDate && 'T' !in f.endDate
  {
    ProjectForm(p.title, p.description, p.detailedDescription, Join(p.technologies, ", "), p.githubUrl,
      p.liveUrl.GetOr(""), p.imageUrl, p.featured, p.category, p.status, DateOnly(p.startDate),
      EndDateInput(p.endDate))
  }

  /**
   * Editing a project and saving it unchanged sends the project back as it
   * was, provided its technologies are a non-empty list of trimmed,
   * comma-free names and its dates are already days; a missing live URL is
   * sent as `''`.
   */
  lemma EditThenSubmit(p: Project)
    requires |p.technologies| >= 1
    requires forall i :: 0 <= i < |p.technologies| ==> IsTrimmed(p.technologies[i]) && ',' !in p.technologies[i]
    requires 'T' !in p.startDate
    requires p.endDate.Some? ==> p.endDate.value != "" && 'T' !in p.endDate.value
    ensures DraftOf(FormOf(p)) == ProjectDraft(p.title, p.description, p.detailedDescription, p.technologies,
      p.githubUrl, p.liveUrl.GetOr(""), p.imageUrl, p.featured, p.category, p.status, p.startDate, p.endDate)
  {
    SplitTrimJoin(p.technologies);
  }

  /** Saving an edited project turns an absent live URL into `''` and an empty end date into an absent one. */
  lemma EditThenSubmitNormalises(p: Project)
    ensures p.liveUrl.None? ==> DraftOf(FormOf(p)).liveUrl == ""
    ensures p.endDate == Some("") ==> DraftOf(FormOf(p)).endDate == None
    ensures p.technologies == [] ==> DraftOf(FormOf(p)).technologies == [""]
  {
    if p.technologies == [] {
      EmptyListReadsBackAsEmptyItem();
    }
  }

  /** The calls the project manager issues through `adminService`; a write keeps the form it was built from, and sends `DraftOf(form)` as its body. */
  datatype ProjectAdminRequest =
    | ListProjects
    | CreateProject(form: ProjectForm)
    | UpdateProject(id: string, form: ProjectForm)
    | DeleteProject(id: string)

  /** The write `handleSubmit` issues: an update of the project being edited, otherwise a creation. */
  function WriteOf(editing: Option<Project>, form: ProjectForm): (r: ProjectAdminRequest)
    ensures r.UpdateProject? <==> editing.Some?
    ensures r.UpdateProject? ==> r.id == editing.value.id
    ensures r.CreateProject? || r.UpdateProject?
    ensures r.form == form
  {
    match editing
    case Some(p) => UpdateProject(p.id, form)
    case None => CreateProject(form)
  }

  class ProjectManager {
    var projects: seq<Project>
    var loading: bool
    var showForm: bool
    var editing: Option<Project>
    var form: ProjectForm
    var requests: seq<ProjectAdminRequest>

    /** The first render, before the effect loads the list. */
    constructor (now: string)
      ensures projects == [] && loading && !showForm && editing == None && form == BlankProjectForm(now) && requests == []
    {
      projects := [];
      loading := true;
      showForm := false;
      editing := None;
      form := BlankProjectForm(now);
      requests := [];
    }

    /** `loadProjects`: the answer replaces the list; a failure keeps it; loading is over either way. */
    method LoadProjects(answer: Outcome<ProjectListResponse>)
      modifies this`projects, this`loading, this`requests
      ensures requests == old(requests) + [ListProjects]
      ensures !loading
      ensures projects == if answer.Ok? then answer.value.data else old(projects)
    {
      requests := requests + [ListProjects];
      if answer.Ok? {
        projects := answer.value.data;
      }
      loading := false;
    }

    /**
     * `handleSubmit`: one write; when it succeeds the form closes and
     * resets and the list is loaded once more; when it fails nothing
     * changes but the request log. Loading is never switched back on.
     */
    method HandleSubmit(write: Outcome<()>, reload: Outcome<ProjectListResponse>, now: string) returns (saved: bool)
      modifies this
      ensures saved <==> write.Ok?
      ensures !old(loading) ==> !loading
      ensures saved ==>
        requests == old(requests) + [WriteOf(old(editing), old(form))] + [ListProjects]
        && !showForm && editing == None && form == BlankProjectForm(now) && !loading
        && projects == if reload.Ok? then reload.value.data else old(projects)
      ensures !saved ==>
        requests == old(requests) + [WriteOf(old(editing), old(form))]
        && showForm == old(showForm) && editing == old(editing) && form == old(form)
        && loading == old(loading) && projects == old(projects)
    {
      requests := requests + [WriteOf(editing, form)];
      saved := write.Ok?;
      if saved {
        showForm := false;
        editing := None;
        form := BlankProjectForm(now);
        LoadProjects(reload);
      }
    }

    /** `handleEdit`: select the project, fill the form from it and open the form. */
    method HandleEdit(p: Project)
      modifies this`editing, this`form, this`showForm
      ensures editing == Some(p) && form == FormOf(p) && showForm
    {
      editing := Some(p);
      form := FormOf(p);
      showForm := true;
    }

    /**
     * `handleDelete`: nothing without the user's confirmation; otherwise
     * one delete, followed by one reload when it succeeds.
     */
    method HandleDelete(id: string, confirmed: bool, write: Outcome<()>, reload: Outcome<ProjectListResponse>)
      modifies this`projects, this`loading, this`requests
      ensures !old(loading) ==> !loading
      ensures !confirmed ==> requests == old(requests) && projects == old(projects) && loading == old(loading)
      ensures confirmed && write.Err? ==>
        requests == old(requests) + [DeleteProject(id)] && projects == old(projects) && loading == old(loading)
      ensures confirmed && write.Ok? ==>
        requests == old(requests) + [DeleteProject(id)] + [ListProjects] && !loading
        && projects == if reload.Ok? then reload.value.data else old(projects)
    {
      if confirmed {
        requests := requests + [DeleteProject(id)];
        if write.Ok? {
          LoadProjects(reload);
        }
      }
    }

    /** The Cancel button: close the form, drop the selection, blank the fields. */
    method Cancel(now: string)
      modifies this`showForm, this`editing, this`form
      ensures !showForm && editing == None && form == BlankProjectForm(now)
    {
      showForm := false;
      editing := None;
      form := BlankProjectForm(now);
    }

    /** The "New Project" button: it only opens the form. */
    method OpenForm()
      modifies this`showForm
      ensures showForm
    {
      showForm := true;
    }

    /** Typing into the form's inputs. */
    method SetForm(f: ProjectForm)
      modifies this`form
      ensures form == f
    {
      form := f;
    }
  }
}
