/** What the resolver answers for a chat sender (internal/resolver/resolver.go). */
module ResolverTypes {
  import opened Wrappers
  import DjClass

  datatype Status = Linked | Unsynced | Unlinked

  datatype Badges = Badges(auto: DjClass.Badge, viewer: DjClass.Badge)

  datatype Resolution = Resolution(status: Status, badge: Option<Badges>)

  const UNLINKED := Resolution(Unlinked, None)
}
