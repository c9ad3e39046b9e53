/** The records the game engine works on (src/game/types.ts). Numbers are JavaScript
    doubles in the source; here they are exact reals. */
module GameTypes {

  /** A pointer position in field coordinates. */
  datatype Vec2 = Vec2(x: real, y: real)

  /** A launched object. `isBomb` is not declared by the interface but is set on every
      object the engine creates, so it is part of the record here. */
  datatype GameItem = GameItem(
    id: real,
    x: real,
    y: real,
    vx: real,
    vy: real,
    rotation: real,
    rotationSpeed: real,
    width: real,
    height: real,
    imageIndex: int,
    sliced: bool,
    offScreen: bool,
    counted: bool,
    isBomb: bool)

  /** One point of the blade trail, stamped with the clock reading (milliseconds). */
  datatype BladePoint = BladePoint(x: real, y: real, time: real)

  /** Which screen the game shows. */
  datatype GameScreen = Start | Playing | GameOver
}
