/** What a booth exposes to hit-testing (components/expo/Booth.tsx): the
    descriptor it is given and the marker on its root group. */
module Booth {

  import opened Optional

  datatype Vec3 = Vec3(x: real, y: real, z: real)

  /** A booth descriptor as listed in the hall's booth table. */
  datatype BoothData = BoothData(id: int, name: string, color: string, position: Vec3)

  /** The two `userData` fields the resolver reads from a scene object. */
  datatype UserData = UserData(isBooth: bool, boothData: Option<BoothData>)

  /** A hit object and its parents, innermost first, up to the scene root. */
  type AncestorChain = seq<UserData>

  /** A scene object carrying no marker (three.js starts `userData` empty). */
  const PLAIN: UserData := UserData(false, None)

  /** The marker a booth's root group carries: tagged, with the descriptor it
      was given (absent when the `boothData` prop is). */
  function BoothTag(boothData: Option<BoothData>): (r: UserData)
    ensures r.isBooth && r.boothData == boothData
  {
    UserData(true, boothData)
  }
}
