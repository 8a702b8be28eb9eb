/** The cast of the concrete inputs. */
module Scenario {
  import opened Graph
  import opened Capabilities

  const SERVICE: Did := "did:web:service"
  const OWNER: Did := "did:key:owner"
  const BOB: Did := "did:key:bob"

  function StoreAdd(): Descriptor {
    Descriptor("store/add", with => Some(with), nb => Some(nb), DefaultDerives)
  }

  function OnOwner(): Capability {
    Capability("store/add", OWNER, Fields(""))
  }
}
