/** The `Volunteer` entity: one user signed up for one event. */
module VolunteerModel {
  import opened Wrappers
  import opened Guids
  import opened Calendar

  datatype Volunteer = Volunteer(
    id: Guid,
    userId: Option<string>,
    eventId: Guid,
    signedUpAt: DateTime)
}
