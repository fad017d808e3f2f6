/**
 * One simulated user session. The process-wide activity list that the
 * source keeps in a global is modelled as the one field of `ActivityCache`;
 * it is filled by the first successful catalog fetch that finds it empty
 * and only read afterwards.
 */
module Session {
  import opened Outcome
  import opened Text

  /** The cached activity list after a catalog reply: a successful reply fills a still empty
      list; any other reply, or an already filled list, leaves it as it was. */
  function Refresh(activities: seq<string>, reply: CatalogReply): seq<string>
  {
    if activities == [] && reply.CatalogResponse? && reply.status == 200 then reply.names else activities
  }

  class ActivityCache {
    /** The cached activity names; empty until a fetch populates it. */
    var activities: seq<string>

    constructor ()
      ensures activities == []
    {
      activities := [];
    }

    /** GET /activities for `userId`. A 200 reply whose body parsed populates the list if it is
        still empty; any other outcome leaves it alone. The record follows `FetchRecord`. */
    method FetchActivities(userId: nat, reply: CatalogReply, elapsed: real) returns (r: Record)
      modifies this
      ensures r == FetchRecord(userId, reply, elapsed)
      ensures activities == Refresh(old(activities), reply)
    {
      if reply.CatalogResponse? && reply.status == 200 && activities == [] {
        activities := reply.names;
      }
      r := FetchRecord(userId, reply, elapsed);
    }

    /** POST the signup of `userId` for its round-robin activity. `service` stands for the server:
        it maps the request path and the e-mail parameter to the reply. The request carries the
        space-encoded activity name and the user's unique identity. */
    method SignupForActivity(userId: nat, runId: nat, service: (string, string) -> SignupReply, elapsed: real)
      returns (r: Record)
      ensures var name := SelectActivity(activities, userId);
        r == SignupRecord(name, userId, service(SignupPath(name), Email(userId, runId)), elapsed)
      ensures activities != [] ==> r.endpoint == SignupEndpoint(activities[userId % |activities|])
      ensures activities == [] ==> r.endpoint == SignupEndpoint(FallbackActivity)
    {
      var name: string;
      if activities != [] {
        name := activities[userId % |activities|];
      } else {
        name := FallbackActivity;
      }
      var email := Email(userId, runId);
      var encoded := EncodeSpaces(name);
      var reply := service("/activities/" + encoded + "/signup", email);
      r := SignupRecord(name, userId, reply, elapsed);
    }

    /** A whole session: the catalog fetch, then the signup that reads the list as the fetch left
        it. Exactly two records, in that order. */
    method SimulateUserSession(userId: nat, runId: nat, catalog: CatalogReply,
                               service: (string, string) -> SignupReply,
                               fetchTime: real, signupTime: real)
      returns (rs: seq<Record>)
      modifies this
      ensures activities == Refresh(old(activities), catalog)
      ensures var name := SelectActivity(activities, userId);
        rs == [FetchRecord(userId, catalog, fetchTime),
               SignupRecord(name, userId, service(SignupPath(name), Email(userId, runId)), signupTime)]
    {
      var view := FetchActivities(userId, catalog, fetchTime);
      var signup := SignupForActivity(userId, runId, service, signupTime);
      rs := [view, signup];
    }
  }
}
