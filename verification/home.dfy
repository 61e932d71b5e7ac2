/**
 * The home page (`Home`): it probes the server's health and, when the
 * server answers, loads the featured projects. The status turns online as
 * soon as the probe succeeds, while the page is still loading; it turns
 * offline when the probe fails or, afterwards, when the featured projects
 * fail to load. Loading ends when the last call settles.
 */
module HomePage {
  import opened Remote
  import opened Content

  datatype ServerStatus = Checking | Online | Offline

  /** Body of a health answer; the page does not read it. */
  datatype HealthResponse = HealthResponse(success: bool, message: string)

  /** The calls the home page issues. */
  datatype HomeRequest = Health | Featured

  /** The status after both awaits: online only when both calls succeeded. */
  function StatusAfter(health: Outcome<HealthResponse>, featured: Outcome<ProjectListResponse>): (s: ServerStatus)
    ensures s != Checking
    ensures s == Online <==> health.Ok? && featured.Ok?
  {
    if health.Ok? && featured.Ok? then Online else Offline
  }

  class Home {
    var featuredProjects: seq<Project>
    var loading: bool
    var serverStatus: ServerStatus
    var requests: seq<HomeRequest>

    /** While the status is still being checked the page is loading. */
    predicate Valid()
      reads this
    {
      serverStatus == Checking ==> loading
    }

    /** The first render: checking, loading, no featured projects. */
    constructor ()
      ensures Valid()
      ensures serverStatus == Checking && loading && featuredProjects == [] && requests == []
    {
      featuredProjects := [];
      loading := true;
      serverStatus := Checking;
      requests := [];
    }

    /**
     * The health probe settles: on success the status turns online and
     * loading goes on; on failure the `catch` sets offline and the
     * `finally` ends loading. The featured list is not touched.
     */
    method SettleHealth(health: Outcome<HealthResponse>) returns (probeOk: bool)
      modifies this`serverStatus, this`loading, this`requests
      ensures Valid()
      ensures probeOk <==> health.Ok?
      ensures requests == old(requests) + [Health]
      ensures health.Ok? ==> serverStatus == Online && loading == old(loading)
      ensures health.Err? ==> serverStatus == Offline && !loading
    {
      requests := requests + [Health];
      probeOk := health.Ok?;
      if probeOk {
        serverStatus := Online;
      } else {
        serverStatus := Offline;
        loading := false;
      }
    }

    /**
     * The featured projects settle, after a successful probe: the answer
     * replaces the list; a failure turns the status offline and keeps the
     * list. Loading ends either way.
     */
    method SettleFeatured(featured: Outcome<ProjectListResponse>)
      requires serverStatus == Online
      modifies this`featuredProjects, this`serverStatus, this`loading, this`requests
      ensures Valid() && !loading
      ensures requests == old(requests) + [Featured]
      ensures featured.Ok? ==> featuredProjects == featured.value.data && serverStatus == Online
      ensures featured.Err? ==> featuredProjects == old(featuredProjects) && serverStatus == Offline
    {
      requests := requests + [Featured];
      match featured {
        case Ok(body) =>
          featuredProjects := body.data;
        case Err(_) =>
          serverStatus := Offline;
      }
      loading := false;
    }

    /**
     * `fetchData`: the health probe, then the featured projects only if the
     * probe succeeded. The status ends online only when both succeeded; a
     * failed fetch of the featured projects leaves the list as it was.
     */
    method FetchData(health: Outcome<HealthResponse>, featured: Outcome<ProjectListResponse>)
      modifies this
      ensures Valid() && !loading
      ensures serverStatus == StatusAfter(health, featured)
      ensures health.Err? ==> requests == old(requests) + [Health] && featuredProjects == old(featuredProjects)
      ensures health.Ok? ==> requests == old(requests) + [Health] + [Featured]
      ensures health.Ok? && featured.Ok? ==> featuredProjects == featured.value.data
      ensures health.Ok? && featured.Err? ==> featuredProjects == old(featuredProjects)
    {
      var probeOk := SettleHealth(health);
      if probeOk {
        SettleFeatured(featured);
      }
    }
  }
}
