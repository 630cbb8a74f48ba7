/** `ApplicationDbContext`: the tables the controllers read and change. Each
    table is held as the sequence of its committed rows; an `Add` followed by a
    successful `SaveChanges` appends a row, and a failed save commits nothing. */
module Data {
  import opened Guids
  import opened EventModel
  import opened VolunteerModel
  import opened DonationModel
  import opened BlogPostModel

  /** No two events share an identifier (the primary key of `Events`). */
  predicate EventIdsUnique(events: seq<Event>) {
    forall i, j :: 0 <= i < j < |events| ==> events[i].id != events[j].id
  }

  /** Identity values of `Donations`, increasing in insertion order and all
      below the next value the store will hand out. */
  predicate DonationIdsIncreasing(donations: seq<Donation>, nextId: int) {
    && (forall i, j :: 0 <= i < j < |donations| ==> donations[i].id < donations[j].id)
    && (forall i :: 0 <= i < |donations| ==> donations[i].id < nextId)
  }

  class AppDb {
    var events: seq<Event>
    var volunteers: seq<Volunteer>
    var donations: seq<Donation>
    var blogPosts: seq<BlogPost>
    var nextDonationId: int        // the identity column's next value

    /** The keys the store enforces. */
    ghost predicate Valid()
      reads this
    {
      EventIdsUnique(events) && DonationIdsIncreasing(donations, nextDonationId)
    }

    /** An empty database. */
    constructor ()
      ensures Valid()
      ensures events == [] && volunteers == [] && donations == [] && blogPosts == []
    {
      events, volunteers, donations, blogPosts := [], [], [], [];
      nextDonationId := 1;
    }

    /** `Donations.Add(d)` then `SaveChanges()`: the store assigns the next
        identity value to the new row. */
    method AddDonation(d: Donation) returns (stored: Donation)
      requires Valid()
      modifies this`donations, this`nextDonationId
      ensures Valid()
      ensures stored == d.(id := old(nextDonationId))
      ensures donations == old(donations) + [stored]
      ensures nextDonationId > old(nextDonationId)
    {
      stored := d.(id := nextDonationId);
      donations := donations + [stored];
      nextDonationId := nextDonationId + 1;
    }
  }
}
