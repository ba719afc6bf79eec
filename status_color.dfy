/** The colour the admin dashboard gives a job status. */
module StatusColor {
  import opened Text

  const Green := "green"
  const Blue := "blue"
  const Red := "red"
  const Gray := "gray"

  /** `getStatusColor`: the lower-cased status picks green, blue or red;
      anything else is gray. */
  function GetStatusColor(status: string): (c: string)
  {
    var s := Lower(status);
    if s == "completed" then Green
    else if s == "processing" then Blue
    else if s == "failed" then Red
    else Gray
  }

  /** The colour ignores letter case: two statuses that differ only in case
      get the same colour. */
  lemma StatusColorIgnoresCase(a: string, b: string)
    requires Lower(a) == Lower(b)
    ensures GetStatusColor(a) == GetStatusColor(b)
  {
  }

  /** Each colour and the statuses it stands for, both ways. */
  lemma StatusColorCases(status: string)
    ensures GetStatusColor(status) == Green <==> Lower(status) == "completed"
    ensures GetStatusColor(status) == Blue <==> Lower(status) == "processing"
    ensures GetStatusColor(status) == Red <==> Lower(status) == "failed"
    ensures GetStatusColor(status) == Gray <==> Lower(status) !in {"completed", "processing", "failed"}
    ensures GetStatusColor(status) in {Green, Blue, Red, Gray}
  {
  }

  /** Upper-case spellings find their colour too. */
  lemma StatusColorUpperCase()
    ensures GetStatusColor("COMPLETED") == Green
    ensures GetStatusColor("Failed") == Red
    ensures GetStatusColor("pending") == Gray
  {
    assert Lower("COMPLETED") == "completed";
    assert Lower("Failed") == "failed";
  }
}
