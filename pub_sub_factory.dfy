/** Selection of the publish/subscribe broker (PubSubFactory.java): the
    configured broker name is compared, ignoring case, first with
    "NaradaBrokering" and then with "ActiveMQ"; any other name is refused.
    The broker services themselves are network clients and are represented
    here by a tag recording the arguments they were built with. */
module PubSubFactory {
  import opened Jvm

  const NaradaBrokerName: string := "NaradaBrokering"
  const ActiveMqBrokerName: string := "ActiveMQ"
  const UnsupportedBroker: string := "Unsuported pub/sub broker."

  /** The service the factory builds, with the arguments passed to its
      constructor. `E` stands for the runtime's entity-type enumeration
      (the role of the process asking for a connection), which is only
      passed through. */
  datatype PubSubService<E> =
    | NBPubSubService(entity: E, daemonNo: int)
    | MQPubSubService(entity: E, daemonNo: int)

  /** Java's `Character.toLowerCase` restricted to ASCII letters. */
  function LowerCase(c: char): char {
    if 'A' <= c <= 'Z' then (c as int + 32) as char else c
  }

  /** `String.equalsIgnoreCase` for text whose letters are ASCII: equal
      text always matches, and matching text has the same length. */
  function EqualsIgnoreCase(a: string, b: string): (r: bool)
    ensures a == b ==> r
    ensures r ==> |a| == |b|
  {
    |a| == |b| && forall i :: 0 <= i < |a| ==> LowerCase(a[i]) == LowerCase(b[i])
  }

  /** `getPubSubService`'s if / else-if / else chain on the broker name. */
  function GetPubSubService<E>(broker: string, entity: E, daemonNo: int): (r: Result<PubSubService<E>>)
    ensures r.Ok? && r.value.NBPubSubService? <==> EqualsIgnoreCase(broker, NaradaBrokerName)
    ensures r.Ok? && r.value.MQPubSubService? <==>
              !EqualsIgnoreCase(broker, NaradaBrokerName) && EqualsIgnoreCase(broker, ActiveMqBrokerName)
    ensures r.Throws? <==>
              !EqualsIgnoreCase(broker, NaradaBrokerName) && !EqualsIgnoreCase(broker, ActiveMqBrokerName)
    ensures r.Throws? ==> r.error == PubSubException(UnsupportedBroker)
    ensures r.Ok? ==> r.value.entity == entity && r.value.daemonNo == daemonNo
  {
    if EqualsIgnoreCase(broker, NaradaBrokerName) then
      Ok(NBPubSubService(entity, daemonNo))
    else if EqualsIgnoreCase(broker, ActiveMqBrokerName) then
      Ok(MQPubSubService(entity, daemonNo))
    else
      Throws(PubSubException(UnsupportedBroker))
  }

  /** The two broker names are different even ignoring case, so at most one
      branch can match and the order of the tests never matters. */
  lemma BrokerNamesDistinct(broker: string)
    ensures !(EqualsIgnoreCase(broker, NaradaBrokerName) && EqualsIgnoreCase(broker, ActiveMqBrokerName))
  {
    if EqualsIgnoreCase(broker, NaradaBrokerName) {
      assert |broker| == 15 != |ActiveMqBrokerName|;
    }
  }

  /** Comparing ignoring case is an equivalence. */
  lemma EqualsIgnoreCaseEquivalence(a: string, b: string, c: string)
    ensures EqualsIgnoreCase(a, a)
    ensures EqualsIgnoreCase(a, b) ==> EqualsIgnoreCase(b, a)
    ensures EqualsIgnoreCase(a, b) && EqualsIgnoreCase(b, c) ==> EqualsIgnoreCase(a, c)
  {
  }

  /** Renaming the configured broker with different letter case never
      changes which service is built, or whether the lookup fails. */
  lemma CaseNeverMatters<E>(broker: string, other: string, entity: E, daemonNo: int)
    requires EqualsIgnoreCase(broker, other)
    ensures GetPubSubService(broker, entity, daemonNo) == GetPubSubService(other, entity, daemonNo)
  {
    EqualsIgnoreCaseEquivalence(other, broker, NaradaBrokerName);
    EqualsIgnoreCaseEquivalence(broker, other, NaradaBrokerName);
    EqualsIgnoreCaseEquivalence(other, broker, ActiveMqBrokerName);
    EqualsIgnoreCaseEquivalence(broker, other, ActiveMqBrokerName);
  }

  /** Concrete spellings: the exact names, an all-lower-case name, and a
      name that differs by one letter. */
  lemma SelectionExamples<E>(entity: E)
    ensures GetPubSubService("NaradaBrokering", entity, 3) == Ok(NBPubSubService(entity, 3))
    ensures GetPubSubService("activemq", entity, 0) == Ok(MQPubSubService(entity, 0))
    ensures GetPubSubService("ActiveMQ2", entity, 0).Throws?
  {
    assert EqualsIgnoreCase("activemq", ActiveMqBrokerName);
    assert !EqualsIgnoreCase("activemq", NaradaBrokerName);
  }
}
