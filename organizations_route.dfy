/**
 * `POST /api/organizations`: create an organization named in the request
 * body, with a slug derived from the name, and make the caller its owner.
 */
module OrganizationsRoute {
  import opened Store
  import opened Http
  import opened Slug

  /** The fields of the JSON body the route reads. */
  datatype OrgBody = OrgBody(name: Option<string>, description: Option<string>)

  /** `findUnique({ where: { slug } })` finds a row. */
  predicate SlugTaken(orgs: map<Id, OrganizationRow>, slug: string)
  {
    exists o :: o in orgs && orgs[o].slug == slug
  }

  /**
   * The route. `body` is None when the body is not JSON (parsing throws and
   * the route answers 500); `suffix` stands for the random base-36 suffix
   * the route draws when the slug is taken; `freshId` is the id the
   * database gives the new organization.
   */
  method PostOrganization(db: Backend, session: Option<Session>, body: Option<OrgBody>,
                          suffix: string, freshId: Id)
    returns (response: Response<(Id, OrganizationRow)>)
    requires db.Valid() && freshId !in db.organizations
    modifies db
    ensures db.Valid()
    ensures session.None? ==> response == Error(401, "Unauthorized") && unchanged(db)
    ensures session.Some? && body.None? ==> response == Error(500, "Internal server error") && unchanged(db)
    ensures session.Some? && body.Some? && !Truthy(body.value.name) ==>
              response == Error(400, "Name is required") && unchanged(db)
    ensures session.Some? && body.Some? && Truthy(body.value.name) ==>
              var user, name := session.value.userId, body.value.name.value;
              var base := MakeSlug(name);
              var slug := if SlugTaken(old(db.organizations), base) then base + "-" + suffix else base;
              && (SlugTaken(old(db.organizations), slug) ==>
                    response == Error(500, "Internal server error") && unchanged(db))
              && (!SlugTaken(old(db.organizations), slug) ==>
                    var org := OrganizationRow(name, slug, body.value.description, user);
                    && response == Json((freshId, org))
                    && db.organizations == old(db.organizations)[freshId := org]
                    && db.memberships == old(db.memberships) + {Membership(freshId, user, "OWNER")}
                    && (forall m :: m in db.memberships && m.organizationId == freshId ==>
                          m == Membership(freshId, user, "OWNER"))
                    && db.cards == old(db.cards) && db.lists == old(db.lists) && db.boards == old(db.boards)
                    && db.invalidated == old(db.invalidated))
  {
    if session.None? {
      return Error(401, "Unauthorized");
    }
    if body.None? {
      return Error(500, "Internal server error");
    }
    var name := body.value.name;
    if !Truthy(name) {
      return Error(400, "Name is required");
    }
    var user := session.value.userId;
    var slug := MakeSlug(name.value);
    if SlugTaken(db.organizations, slug) {
      slug := slug + "-" + suffix;
    }
    if SlugTaken(db.organizations, slug) {
      // the unique index on the slug rejects the insert
      return Error(500, "Internal server error");
    }
    var org := OrganizationRow(name.value, slug, body.value.description, user);
    db.organizations := db.organizations[freshId := org];
    db.memberships := db.memberships + {Membership(freshId, user, "OWNER")};
    return Json((freshId, org));
  }
}
