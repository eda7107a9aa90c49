/** client/src/components/projects/ProjectCard.tsx: shortening the
    description and the status colour. */
module ProjectCard {

  /** `text.slice(0, end)`: a negative end counts from the end of the
      text, and the result never reaches past either end. */
  function Slice(text: string, end: int): (s: string)
    ensures end >= 0 ==> |s| == if end >= |text| then |text| else end
    ensures end < 0 ==> |s| == if |text| + end <= 0 then 0 else |text| + end
    ensures s == text[..|s|]
  {
    if end < 0 then (if |text| + end <= 0 then "" else text[..|text| + end])
    else if end >= |text| then text else text[..end]
  }

  /** `truncateText(text, maxLength)`. */
  function TruncateText(text: string, maxLength: int): (r: string)
    ensures |text| <= maxLength ==> r == text
    ensures |text| > maxLength ==> r == Slice(text, maxLength) + "..."
    ensures |text| > maxLength && maxLength >= 0 ==> |r| == maxLength + 3
    ensures maxLength >= 0 ==> var keep := if |text| < maxLength then |text| else maxLength;
      keep <= |r| && r[..keep] == text[..keep]
  {
    if |text| <= maxLength then text else Slice(text, maxLength) + "..."
  }

  /** A shortened text is left alone by a limit that counts the ellipsis. */
  lemma TruncatedFitsWithEllipsis(text: string, maxLength: int)
    requires |text| > maxLength >= 0
    ensures TruncateText(TruncateText(text, maxLength), maxLength + 3) == TruncateText(text, maxLength)
  {
  }

  /** `getStatusColor(status)`. */
  function GetStatusColor(status: string): (color: string)
    ensures color == "success" <==> status == "COMPLETED"
    ensures color == "primary" <==> status == "IN_PROGRESS"
    ensures color == "warning" <==> status == "ON_HOLD"
    ensures color == "default" <==> status !in {"COMPLETED", "IN_PROGRESS", "ON_HOLD"}
  {
    if status == "COMPLETED" then "success"
    else if status == "IN_PROGRESS" then "primary"
    else if status == "ON_HOLD" then "warning"
    else "default"
  }
}
