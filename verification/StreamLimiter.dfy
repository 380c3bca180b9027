/** The per-organisation limit on concurrent streams (`src/http/rateLimits.ts`). A
    successful `Acquire` hands out a release handle; releasing twice counts once. */
module StreamLimiter {
  import opened Options

  class Limiter {
    const maxPerOrg: int
    var active: map<string, int>
    /** Every handle given out. */
    ghost var handles: set<Handle>

    constructor (maxPerOrg: int)
      ensures Valid() && handles == {} && active == map[] && this.maxPerOrg == maxPerOrg
    {
      this.maxPerOrg := maxPerOrg;
      active, handles := map[], {};
    }

    /** The streams of an organisation that have not been released. */
    ghost function Open(orgId: string): set<Handle>
      reads this, handles
    {
      set h | h in handles && h.orgId == orgId && !h.released
    }

    function Count(orgId: string): int
      reads this
    {
      if orgId in active then active[orgId] else 0
    }

    /** The counter of each organisation is the number of its open streams, within the
        cap, and organisations without one have no entry. */
    ghost predicate Valid()
      reads this, handles
    {
      && (forall h :: h in handles ==> h.limiter == this)
      && (forall orgId :: Count(orgId) == |Open(orgId)|)
      && (forall orgId :: orgId in active ==> 0 < active[orgId] <= maxPerOrg)
    }

    /** Fails exactly at the cap. */
    method Acquire(orgId: string) returns (release: Option<Handle>)
      requires Valid()
      modifies this
      ensures Valid()
      ensures release.Some? <==> |old(Open(orgId))| < maxPerOrg
      ensures release.Some? ==>
                && fresh(release.value) && !release.value.released && release.value.orgId == orgId
                && handles == old(handles) + {release.value}
                && active == old(active)[orgId := old(Count(orgId)) + 1]
      ensures release.None? ==> handles == old(handles) && active == old(active)
    {
      var current := Count(orgId);
      if current >= maxPerOrg { return None; }
      active := active[orgId := current + 1];
      var h := new Handle(this, orgId);
      handles := handles + {h};
      assert Open(orgId) == old(Open(orgId)) + {h};
      assert forall org :: org != orgId ==> Open(org) == old(Open(org));
      return Some(h);
    }
  }

  class Handle {
    const limiter: Limiter
    const orgId: string
    var released: bool

    constructor (limiter: Limiter, orgId: string)
      ensures this.limiter == limiter && this.orgId == orgId && !released
    {
      this.limiter, this.orgId, released := limiter, orgId, false;
    }

    /** Takes one off the counter the first time, and does nothing after. */
    method Release()
      requires limiter.Valid() && this in limiter.handles
      modifies this`released, limiter`active
      ensures limiter.Valid() && released && limiter.handles == old(limiter.handles)
      ensures limiter.Count(orgId) == old(limiter.Count(orgId)) - if old(released) then 0 else 1
      ensures forall org :: org != orgId ==> limiter.Count(org) == old(limiter.Count(org))
      ensures old(released) ==> limiter.active == old(limiter.active)
    {
      if released { return; }
      ghost var before := limiter.Open(orgId);
      assert this in before;
      released := true;
      var n := (if orgId in limiter.active then limiter.active[orgId] else 1) - 1;
      if n <= 0 {
        limiter.active := limiter.active - {orgId};
      } else {
        limiter.active := limiter.active[orgId := n];
      }
      assert limiter.Open(orgId) == before - {this};
      assert n == |before| - 1;
      assert forall org :: org != orgId ==> limiter.Open(org) == old(limiter.Open(org));
    }
  }
}
