/** The browser's local storage, reduced to the three keys the application
    uses. A key that was never written is `None`; a present key holds the
    parsed collection (JSON encoding and decoding are not modelled). */
module Storage {
  import opened Records

  class Browser {
    /** `'maker-projects'` */
    var projects: Option<seq<Project>>
    /** `'maker-users'` */
    var users: Option<seq<User>>
    /** `'maker-active-user'` */
    var active: Option<User>

    constructor (projects: Option<seq<Project>>, users: Option<seq<User>>, active: Option<User>)
      ensures this.projects == projects && this.users == users && this.active == active
    {
      this.projects := projects;
      this.users := users;
      this.active := active;
    }
  }
}
