/** The roles a signed-in user can have. The store declares only `admin` and
    `analyst`, but the login page, the route guards and the navigation also
    assign and test `company` and `user`, so all four are modelled. */
module Roles {

  datatype Role = Admin | Analyst | Company | User

  /** The string the program stores and compares for each role. */
  function Name(r: Role): string
  {
    match r
    case Admin => "admin"
    case Analyst => "analyst"
    case Company => "company"
    case User => "user"
  }
}
