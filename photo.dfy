/**
 * Choosing the photo stored with a new plant. The camera capture and the
 * file dialog are devices outside the model: the capture arrives as the
 * optional path it returned, the dialog as the text it returned.
 */
module Photo {
  import opened Wrappers

  /** The picker's answer: a chosen path, or none when the dialog gave back empty text. */
  function PickedPath(dialogResult: string): (r: Option<string>)
    ensures r == None <==> dialogResult == ""
    ensures r != None ==> r.value == dialogResult
  {
    if dialogResult != "" then Some(dialogResult) else None
  }

  /**
   * The photo path of a new plant from the photo menu choice: "1" takes the
   * camera's result, "2" the picker's, and any other answer means no photo.
   */
  function ChosenPhoto(choice: string, captured: Option<string>, dialogResult: string): (r: Option<string>)
    ensures choice == "1" ==> r == captured
    ensures choice == "2" ==> r == PickedPath(dialogResult)
    ensures choice != "1" && choice != "2" ==> r == None
  {
    if choice == "1" then captured
    else if choice == "2" then PickedPath(dialogResult)
    else None
  }

  /**
   * A plant gets a photo only when the user asked for one and the device
   * produced a path; a failed or cancelled capture or pick stores none.
   */
  lemma PhotoOnlyWhenProduced(choice: string, captured: Option<string>, dialogResult: string)
    ensures ChosenPhoto(choice, captured, dialogResult) != None
        <==> (choice == "1" && captured != None) || (choice == "2" && dialogResult != "")
  {
  }
}
