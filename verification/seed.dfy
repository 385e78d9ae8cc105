/** The activity registry the server starts with. */
module Seed {
  import opened Registry

  function InitialActivities(): (acts: Activities)
    ensures acts.Keys == {"Chess Club", "Programming Class", "Gym Class", "Soccer Team",
                          "Basketball Team", "Art Club", "Drama Club", "Math Club", "Debate Team"}
  {
    map[
      "Chess Club" := Activity(
        "Learn strategies and compete in chess tournaments",
        "Fridays, 3:30 PM - 5:00 PM", 12,
        ["michael@mergington.edu", "daniel@mergington.edu"]),
      "Programming Class" := Activity(
        "Learn programming fundamentals and build software projects",
        "Tuesdays and Thursdays, 3:30 PM - 4:30 PM", 20,
        ["emma@mergington.edu", "sophia@mergington.edu"]),
      "Gym Class" := Activity(
        "Physical education and sports activities",
        "Mondays, Wednesdays, Fridays, 2:00 PM - 3:00 PM", 30,
        ["john@mergington.edu", "olivia@mergington.edu"]),
      "Soccer Team" := Activity(
        "Join the school soccer team and compete in matches",
        "Tuesdays and Thursdays, 4:00 PM - 5:30 PM", 22,
        ["liam@mergington.edu", "noah@mergington.edu"]),
      "Basketball Team" := Activity(
        "Practice and play basketball with the school team",
        "Wednesdays and Fridays, 3:30 PM - 5:00 PM", 15,
        ["ava@mergington.edu", "mia@mergington.edu"]),
      "Art Club" := Activity(
        "Explore your creativity through painting and drawing",
        "Thursdays, 3:30 PM - 5:00 PM", 15,
        ["amelia@mergington.edu", "harper@mergington.edu"]),
      "Drama Club" := Activity(
        "Act, direct, and produce plays and performances",
        "Mondays and Wednesdays, 4:00 PM - 5:30 PM", 20,
        ["ella@mergington.edu", "scarlett@mergington.edu"]),
      "Math Club" := Activity(
        "Solve challenging problems and participate in math competitions",
        "Tuesdays, 3:30 PM - 4:30 PM", 10,
        ["james@mergington.edu", "benjamin@mergington.edu"]),
      "Debate Team" := Activity(
        "Develop public speaking and argumentation skills",
        "Fridays, 4:00 PM - 5:30 PM", 12,
        ["charlotte@mergington.edu", "henry@mergington.edu"])
    ]
  }

  /** Every seeded list has two distinct emails and fits within its capacity. */
  lemma InitialActivitiesWellFormed()
    ensures AllNoDup(InitialActivities())
    ensures forall name :: name in InitialActivities() ==>
              |InitialActivities()[name].participants| == 2
              && 2 <= InitialActivities()[name].maxParticipants
  {
  }
}
