/**
 * `RoomName` from src/common/room.rs: a room identity that is a string and is
 * compared, hashed and displayed as that string.
 */
module RoomNames {

  datatype RoomName = RoomName(roomName: string)

  /** `RoomName::new` (and `From<String>`, `From<&str>`): the name kept exactly. */
  function New(name: string): (r: RoomName)
    ensures r.roomName == name
  {
    RoomName(name)
  }

  /** `Display`: the inner string. */
  function Display(r: RoomName): (s: string)
    ensures s == r.roomName
  {
    r.roomName
  }

  /** `PartialEq<&str>` and `PartialEq<String>`: the inner string compared with the text. */
  function EqText(r: RoomName, text: string): (b: bool)
    ensures b <==> r == New(text)
  {
    r.roomName == text
  }

  /** Equality of room names is equality of their strings, and display inverts construction. */
  lemma IdentityIsName(a: RoomName, b: RoomName, name: string)
    ensures a == b <==> Display(a) == Display(b)
    ensures Display(New(name)) == name && New(Display(a)) == a
  {
  }
}
