/**
 * The records the application keeps in memory, as they come out of the sheet
 * loader: users, applause ("Millas Extra"), rewards, redemptions, badges and
 * notifications. Dates stay the strings the sheet or the clock produced.
 */
module Types {
  import opened Js

  datatype UserStatus = Activo | Inactivo

  datatype Role = Colaborador | Otorgador | Admin

  datatype User = User(
    usuarioId: string,
    nombre: string,
    email: string,
    estado: UserStatus,
    rol: Role,
    claveHash: string,
    fechaCreacion: string,
    /** Points carried over from before the application existed (`puntos_anteriores`). */
    puntosAnteriores: int)

  /** `users[i]` is the first user with the id. */
  predicate FirstUserWithId(users: seq<User>, id: string, i: int)
  {
    0 <= i < |users| && users[i].usuarioId == id
    && forall j :: 0 <= j < i ==> users[j].usuarioId != id
  }

  datatype Applause = Applause(
    aplausoId: string,
    otorganteId: string,
    receptorId: string,
    principio: string,
    motivo: string,
    fecha: string)

  /** Every field of a reward is text, numbers included, exactly as the sheet holds it. */
  datatype Reward = Reward(
    recompensaId: string,
    nombre: string,
    descripcion: string,
    nivelRequerido: string,
    imagenUrl: string,
    stock: string,
    puntosCosto: string)

  datatype Redemption = Redemption(
    canjeId: string,
    usuarioId: string,
    recompensaId: string,
    fecha: string,
    nivelRequerido: Option<string>,
    puntosRequeridos: Option<string>,
    puntosPrevios: Option<string>,
    puntosRestantes: Option<string>,
    estado: Option<string>,
    comprobantePdfUrl: Option<string>,
    observaciones: Option<string>)

  datatype EarnedBadge = EarnedBadge(
    name: string,
    principle: string,
    count: nat,
    description: string,
    earned: bool,
    earnedDate: Option<string>)

  datatype NotificationType = ApplauseNotice | BadgeNotice

  datatype Notification = Notification(
    id: string,
    kind: NotificationType,
    message: string,
    date: string,
    read: bool,
    relatedId: string)

  /** `a => a.receptor_id === userId` */
  function ReceivedBy(userId: string): Applause -> bool
  {
    (a: Applause) => a.receptorId == userId
  }

  /** `r => r.usuario_id === userId` */
  function OwnedBy(userId: string): Redemption -> bool
  {
    (r: Redemption) => r.usuarioId == userId
  }
}
