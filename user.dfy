/**
 * The user identity value of src/common/user.rs. A `User` is nothing but its
 * name: equality and hashing are those of the name, and the later iterations
 * of the server refer to the same value as `UserName`.
 */
module Users {

  datatype User = User(username: string)

  /** The name the server's components use for a user identity. */
  type UserName = User

  /** `User::new`: the identity whose name is exactly `username`. */
  function New(username: string): (u: User)
    ensures u.username == username
  {
    User(username)
  }

  /** `From<String>` for `User`. */
  function FromString(name: string): (u: User)
    ensures u == New(name) && u.username == name
  {
    New(name)
  }

  /** `From<&str>` for `User`: the text is turned into a `String` first. */
  function FromStr(name: string): (u: User)
    ensures u == New(name) && u.username == name
  {
    FromString(name)
  }

  /** `Display`: the name, verbatim. */
  function Display(u: User): (s: string)
    ensures s == u.username
  {
    u.username
  }

  /** `PartialEq<&str>` and `PartialEq<String>`: the name compared with the text. */
  function EqText(u: User, text: string): (r: bool)
    ensures r <==> u == New(text)
  {
    u.username == text
  }

  /** Derived `Hash`: the hasher sees the name and nothing else. */
  function HashWith(u: User, hasher: string -> int): int
  {
    hasher(u.username)
  }

  /**
   * Identity by name: two users are equal exactly when their names are, and
   * equal users hash alike under every hasher.
   */
  lemma IdentityIsName(a: User, b: User, hasher: string -> int)
    ensures a == b <==> a.username == b.username
    ensures a == b ==> HashWith(a, hasher) == HashWith(b, hasher)
  {
  }

  /** Building from a name and displaying give back the name, and the other way round. */
  lemma NameRoundTrip(name: string, u: User)
    ensures Display(New(name)) == name
    ensures New(Display(u)) == u
  {
  }
}
