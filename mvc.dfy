/** What a controller action hands back to ASP.NET Core MVC. View contents
    are returned separately by the members that compute them. */
module Mvc {
  import opened Wrappers

  datatype ActionResult =
    | View                                                    // View() or View(model)
    | NamedView(name: string)                                 // View("name")
    | RedirectToAction(action: string, controller: Option<string>)
    | Redirect(url: string)
    | NotFound
    | BadRequest
    | Json
    | Unhandled                                               // an exception left the action
}
