/** The resources the controller reads and writes, as values: crypts, secret definitions and secrets. */
module Resources {
  import opened Common

  type Bytes = seq<bv8>
  type Data = map<string, Bytes>

  const CRYPT_KIND := "Crypt"
  const CRYPT_API_VERSION := "core.bluehoodie.io/v1alpha1"
  const OPAQUE_TYPE := "Opaque"

  datatype SecretDefinition = SecretDefinition(
    name: string,
    secretType: string,
    key: string,
    labels: Option<map<string, string>>,
    annotations: Option<map<string, string>>)
  {
    /** An unset type means an opaque secret. */
    function GetType(): string {
      if secretType == "" then OPAQUE_TYPE else secretType
    }
  }

  datatype Crypt = Crypt(
    namespace: string,
    name: string,
    uid: string,
    secrets: seq<SecretDefinition>,
    namespaces: seq<string>)

  datatype OwnerReference = OwnerReference(
    apiVersion: string,
    kind: string,
    name: string,
    uid: string,
    controller: bool,
    blockOwnerDeletion: bool)

  datatype SecretId = SecretId(namespace: string, name: string)

  datatype Secret = Secret(
    namespace: string,
    name: string,
    owners: seq<OwnerReference>,
    labels: Option<map<string, string>>,
    annotations: Option<map<string, string>>,
    secretType: string,
    data: Data)
  {
    function Id(): SecretId {
      SecretId(namespace, name)
    }
  }

  function NewControllerRef(crypt: Crypt): OwnerReference {
    OwnerReference(CRYPT_API_VERSION, CRYPT_KIND, crypt.name, crypt.uid, true, true)
  }

  function NewSecret(data: Data, def: SecretDefinition, crypt: Crypt, namespace: string): Secret {
    Secret(namespace, def.name, [NewControllerRef(crypt)], def.labels, def.annotations, def.GetType(), data)
  }

  /** The first owner reference that is marked as the controller. */
  function ControllerOf(owners: seq<OwnerReference>): (r: Option<OwnerReference>)
    ensures r.None? <==> forall o :: o in owners ==> !o.controller
    ensures r.Some? ==> exists i :: 0 <= i < |owners| && owners[i] == r.value && r.value.controller
                                    && forall j :: 0 <= j < i ==> !owners[j].controller
  {
    if owners == [] then
      None
    else if owners[0].controller then
      Some(owners[0])
    else
      var rest := ControllerOf(owners[1..]);
      assert forall o :: o in owners <==> o == owners[0] || o in owners[1..];
      assert rest.Some? ==> forall i :: 0 <= i < |owners| - 1 ==> owners[1..][i] == owners[i + 1];
      rest
  }

  /** The secret's controller is a crypt of the given name. */
  predicate ControlledBy(secret: Secret, cryptName: string) {
    var owner := ControllerOf(secret.owners);
    owner.Some? && owner.value.kind == CRYPT_KIND && owner.value.name == cryptName
  }

  /** A secret built for a crypt has that very crypt for its controller and only owner, and so no other name. */
  lemma NewSecretIsControlled(data: Data, def: SecretDefinition, crypt: Crypt, namespace: string, other: string)
    ensures var owners := NewSecret(data, def, crypt, namespace).owners;
            && |owners| == 1 && ControllerOf(owners) == Some(owners[0])
            && owners[0].kind == "Crypt" && owners[0].apiVersion == "core.bluehoodie.io/v1alpha1"
            && owners[0].name == crypt.name && owners[0].uid == crypt.uid
            && owners[0].controller && owners[0].blockOwnerDeletion
    ensures ControlledBy(NewSecret(data, def, crypt, namespace), other) <==> other == crypt.name
  {
    var secret := NewSecret(data, def, crypt, namespace);
    assert secret.owners[0].controller;
    assert ControllerOf(secret.owners) == Some(NewControllerRef(crypt));
  }
}
