/** How a statement is attributed: by role, and by name where the role alone does not say who. */
module Attributions {

  /** `people` are those named in the role, anywhere in the engagement. */
  function Attribution(role: string, person: string, people: set<string>): string {
    if role == "" then person
    else if person == "" then role
    else if |people| > 1 then role + " (" + person + ")"
    else role
  }
}
